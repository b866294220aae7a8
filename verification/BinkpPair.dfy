/** Two BinkP parties that both run this code, joined by two FIFO channels of frames.

    Either one may be slow, time out in its short poll, split its files differently, send files of its own
    at the same time, or stop at any point. In every reachable state, what one side counts as acknowledged
    lies complete in the other side's files. */
module BinkpPair {
  import opened Text
  import opened BinkpFrames
  import opened BinkpReceiver
  import opened BinkpSession

  /** The caller sends first and then receives; the answering side receives first. */
  datatype Role = Caller | Answerer

  /** Where a party is: between files, after an announcement, inside a file, waiting for M_GOT, receiving. */
  datatype Phase = Ready | Opened(from: nat) | Sending(pos: nat) | Waiting | Receiving

  datatype Party = Party(role: Role, alive: bool, hasDir: bool, queue: seq<Source>, phase: Phase,
                         inbound: Inbound, done: seq<Source>)

  datatype Move = Announce | Timeout | Block(n: nat) | Finish | Take | Quit

  /** A step of one party: its new state, what is left of its incoming channel and what it writes. */
  datatype Outcome = Outcome(party: Party, rest: seq<Frame>, out: seq<Frame>)

  function GotFrame(x: Xfer): Frame {
    Command(M_GOT, GotText(x.name, x.size, x.mtime))
  }

  /** What a frame does to the receiving half, and the acknowledgement it causes. */
  function Absorbed(s: Inbound, f: Frame, takesFiles: bool): (Inbound, seq<Frame>) {
    match f
    case Data(payload) =>
      var (s', x) := Written(s, payload);
      (s', if x.Some? then [GotFrame(x.value)] else [])
    case Command(cmd, arg) =>
      if cmd == M_FILE && takesFiles then
        (match Begun(s, arg) case Some(s') => (s', []) case None => (Aborted(s), []))
      else (s, [])
  }

  predicate Active(p: Party) {
    p.queue != [] && (p.phase.Opened? || p.phase.Sending? || p.phase.Waiting?)
  }

  /** The party leaves `sendFileFrom` with a verdict. */
  function Concluded(p: Party, v: Verdict): (Party, seq<Frame>)
    requires p.queue != []
  {
    match v
    case Delivered => (p.(phase := Ready, queue := p.queue[1..], done := p.done + [p.queue[0]]), [])
    case Skipped => (p.(phase := Ready, queue := p.queue[1..]), [])
    case Restart(k) =>
      if 0 <= k <= |p.queue[0].content| then (p.(phase := Opened(k)), [FileFrame(p.queue[0], k)])
      else (p.(alive := false), [])
    case Failed => (p.(alive := false), [])
    case Continue => (if p.phase.Opened? then p.(phase := Sending(p.phase.from)) else p, [])
  }

  /** A frame read while sending. */
  function Interrupted(p: Party, f: Frame): (Party, seq<Frame>)
    requires Active(p)
  {
    var (s, acks) := Absorbed(p.inbound, f, p.hasDir);
    var v := if p.phase.Waiting? then WaitVerdict(f, p.queue[0], p.hasDir) else ControlVerdict(f, p.queue[0], p.hasDir);
    var (q, out) := Concluded(p.(inbound := s), v);
    (q, acks + out)
  }

  /** A frame read while receiving. */
  function Fed(p: Party, f: Frame): (Party, seq<Frame>) {
    if EndsBatch(f) then
      if p.role.Caller? then (p.(inbound := Aborted(p.inbound), alive := false), [Command(M_EOB, "")])
      else (p.(inbound := Aborted(p.inbound), phase := Ready), [])
    else if f.Command? && f.cmd == M_ERR then (p.(inbound := Aborted(p.inbound), alive := false), [])
    else
      var (s, acks) := Absorbed(p.inbound, f, true);
      (p.(inbound := s, alive := !(f.Command? && f.cmd == M_FILE && Announced(f.arg).None?)), acks)
  }

  /** The end of the batch: the caller goes on to receive, the answering side is through. */
  function BatchEnded(p: Party): (Party, seq<Frame>) {
    (if p.role.Caller? then p.(phase := Receiving, inbound := Aborted(p.inbound)) else p.(phase := Receiving, alive := false),
     [Command(M_EOB, "")])
  }

  /** What one party does next; a move that is not possible changes nothing. */
  function PartyStep(p: Party, input: seq<Frame>, m: Move): Outcome {
    if !p.alive then Outcome(p, input, [])
    else match m
      case Quit => Outcome(p.(alive := false), input, [])
      case Announce =>
        if !p.phase.Ready? then Outcome(p, input, [])
        else if p.queue != [] then Outcome(p.(phase := Opened(0)), input, [FileFrame(p.queue[0], 0)])
        else var (q, out) := BatchEnded(p); Outcome(q, input, out)
      case Timeout => Outcome(if p.phase.Opened? then p.(phase := Sending(p.phase.from)) else p, input, [])
      case Block(n) =>
        if Active(p) && p.phase.Sending? && 0 < n <= BLOCK && p.phase.pos + n <= |p.queue[0].content| then
          Outcome(p.(phase := Sending(p.phase.pos + n)), input, [Data(p.queue[0].content[p.phase.pos..p.phase.pos + n])])
        else Outcome(p, input, [])
      case Finish =>
        Outcome(if Active(p) && p.phase.Sending? && p.phase.pos == |p.queue[0].content| then p.(phase := Waiting) else p, input, [])
      case Take =>
        if input == [] then Outcome(p, input, [])
        else if Active(p) && (p.phase.Opened? || p.phase.Waiting?) then
          var (q, out) := Interrupted(p, input[0]); Outcome(q, input[1..], out)
        else if p.phase.Receiving? then
          var (q, out) := Fed(p, input[0]); Outcome(q, input[1..], out)
        else Outcome(p, input, [])
  }

  datatype Pair = Pair(a: Party, b: Party, ab: seq<Frame>, ba: seq<Frame>)

  datatype Turn = Turn(first: bool, move: Move)

  function Step(s: Pair, t: Turn): Pair {
    if t.first then
      var o := PartyStep(s.a, s.ba, t.move);
      Pair(o.party, s.b, s.ab + o.out, o.rest)
    else
      var o := PartyStep(s.b, s.ab, t.move);
      Pair(s.a, o.party, o.rest, s.ba + o.out)
  }

  function Run(s: Pair, turns: seq<Turn>): Pair {
    if turns == [] then s else Step(Run(s, turns[..|turns| - 1]), turns[|turns| - 1])
  }

  /** A file the file system can hold. */
  predicate Storable(src: Source) {
    |src.content| <= MAX_INT64 && InInt64(src.mtime)
  }

  predicate Fresh(p: Party) {
    && p.alive && p.done == [] && p.inbound.xfer == None
    && p.phase == (if p.role.Caller? then Ready else Receiving)
    && forall i :: 0 <= i < |p.queue| ==> Storable(p.queue[i])
  }

  /** After the handshake, before anything is sent. */
  predicate Start(s: Pair) {
    Fresh(s.a) && Fresh(s.b) && s.ab == [] && s.ba == []
  }

  /** What the acknowledged files amount to: the last content under each name. */
  function Ledger(done: seq<Source>): map<string, string> {
    if done == [] then map[]
    else Ledger(done[..|done| - 1])[done[|done| - 1].name := done[|done| - 1].content]
  }

  // ---------------------------------------------------------------- the invariant

  /** Frames this code writes: blocks that are not empty, announcements, ends of batch and acknowledgements
      of names without white space. M_GET, M_SKIP and M_ERR are never among them. */
  predicate TameFrame(f: Frame) {
    match f
    case Data(payload) => payload != ""
    case Command(cmd, arg) => cmd == M_FILE || cmd == M_EOB || (cmd == M_GOT && PlainName(GotName(arg)))
  }

  predicate Tame(ch: seq<Frame>) {
    forall i :: 0 <= i < |ch| ==> TameFrame(ch[i])
  }

  predicate Carries(f: Frame) {
    f.Data? || f.cmd == M_FILE
  }

  /** The announcements and blocks under way in a channel. */
  function Carried(ch: seq<Frame>): seq<Frame> {
    if ch == [] then [] else (if Carries(ch[0]) then [ch[0]] else []) + Carried(ch[1..])
  }

  /** The acknowledgements under way in a channel. */
  function Gots(ch: seq<Frame>): seq<string> {
    if ch == [] then [] else (if IsGot(ch[0]) then [ch[0].arg] else []) + Gots(ch[1..])
  }

  lemma {:induction false} CarriedAppend(x: seq<Frame>, y: seq<Frame>)
    ensures Carried(x + y) == Carried(x) + Carried(y)
  {
    hide Carries;
    if x == [] {
      assert x + y == y;
      assert [] + Carried(y) == Carried(y);
    } else {
      assert (x + y)[1..] == x[1..] + y;
      CarriedAppend(x[1..], y);
      var c := if Carries(x[0]) then [x[0]] else [];
      assert c + (Carried(x[1..]) + Carried(y)) == c + Carried(x[1..]) + Carried(y);
    }
  }

  lemma {:induction false} GotsAppend(x: seq<Frame>, y: seq<Frame>)
    ensures Gots(x + y) == Gots(x) + Gots(y)
  {
    hide IsGot;
    if x == [] {
      assert x + y == y;
      assert [] + Gots(y) == Gots(y);
    } else {
      assert (x + y)[1..] == x[1..] + y;
      GotsAppend(x[1..], y);
      var c := Gots([x[0]]);
      OneGot(x[0]);
      assert c + (Gots(x[1..]) + Gots(y)) == c + Gots(x[1..]) + Gots(y);
    }
  }

  predicate AllData(fs: seq<Frame>) {
    forall i :: 0 <= i < |fs| ==> fs[i].Data?
  }

  function Payload(fs: seq<Frame>): string {
    if fs == [] then "" else (if fs[0].Data? then fs[0].payload else "") + Payload(fs[1..])
  }

  lemma {:induction false} PayloadSnoc(fs: seq<Frame>, d: string)
    ensures Payload(fs + [Data(d)]) == Payload(fs) + d
  {
    if fs == [] {
      assert [Data(d)][1..] == [];
      assert fs + [Data(d)] == [Data(d)];
      assert d + "" == d && "" + d == d;
    } else {
      assert (fs + [Data(d)])[1..] == fs[1..] + [Data(d)];
      PayloadSnoc(fs[1..], d);
      var x := if fs[0].Data? then fs[0].payload else "";
      assert x + (Payload(fs[1..]) + d) == x + Payload(fs[1..]) + d;
    }
  }

  /** Nothing under way. */
  predicate Clear(s: Inbound, fwd: seq<Frame>, back: seq<Frame>) {
    s.xfer == None && Carried(fwd) == [] && Gots(back) == []
  }

  /** The announcement has not been read yet. */
  predicate Queued(src: Source, pos: nat, s: Inbound, fwd: seq<Frame>, back: seq<Frame>)
    requires pos <= |src.content|
  {
    var c := Carried(fwd);
    && s.xfer == None && Gots(back) == []
    && c != [] && c[0] == FileFrame(src, 0) && AllData(c[1..]) && Payload(c[1..]) == src.content[..pos]
  }

  /** The file is open at the other end and holds the source up to what was received. */
  predicate Open(src: Source, pos: nat, s: Inbound, fwd: seq<Frame>, back: seq<Frame>)
    requires pos <= |src.content|
  {
    && s.xfer.Some?
    && var x := s.xfer.value;
    && x == Xfer(src.name, |src.content|, src.mtime, x.received)
    && x.received < |src.content| && x.received <= pos
    && src.name in s.files && s.files[src.name] == src.content[..x.received]
    && AllData(Carried(fwd)) && Payload(Carried(fwd)) == src.content[x.received..pos]
    && Gots(back) == []
  }

  /** The file is complete at the other end, and the acknowledgement is on its way. */
  predicate Landed(src: Source, pos: nat, s: Inbound, fwd: seq<Frame>, back: seq<Frame>) {
    && s.xfer == None && 0 < pos == |src.content|
    && src.name in s.files && s.files[src.name] == src.content
    && Carried(fwd) == [] && Gots(back) == [GotText(src.name, |src.content|, src.mtime)]
  }

  /** The other end refused or dropped the file; what still arrives is ignored. */
  predicate Lost(s: Inbound, fwd: seq<Frame>, back: seq<Frame>) {
    s.xfer == None && AllData(Carried(fwd)) && Gots(back) == []
  }

  predicate Busy(src: Source, pos: nat, s: Inbound, fwd: seq<Frame>, back: seq<Frame>)
    requires pos <= |src.content|
  {
    Queued(src, pos, s, fwd, back) || Open(src, pos, s, fwd, back) || Landed(src, pos, s, fwd, back) || Lost(s, fwd, back)
  }

  /** How much of the current file was written since its announcement. */
  function Sent(p: Party): nat
    requires Active(p)
  {
    match p.phase
    case Opened(k) => k
    case Sending(pos) => pos
    case _ => |p.queue[0].content|
  }

  predicate InFile(p: Party) {
    p.phase.Opened? || p.phase.Sending? || p.phase.Waiting?
  }

  predicate SoundPhase(p: Party) {
    && (InFile(p) ==> Active(p))
    && (Active(p) ==> Sent(p) <= |p.queue[0].content|)
    && (p.phase.Opened? ==> p.phase.from == 0)
    && (forall i :: 0 <= i < |p.queue| ==> Storable(p.queue[i]))
  }

  /** A name that cannot be announced is never acknowledged, so the party waits for ever. */
  predicate Stuck(p: Party) {
    Active(p) && !PlainName(p.queue[0].name)
  }

  predicate Kept(p: Party, files: map<string, string>) {
    forall n :: n in Ledger(p.done) ==>
      (Active(p) && n == p.queue[0].name) || (n in files && files[n] == Ledger(p.done)[n])
  }

  /** What holds between a sender, the other side's receiving half and the two channels. */
  predicate Flow(p: Party, s: Inbound, fwd: seq<Frame>, back: seq<Frame>) {
    && SoundPhase(p)
    && (!Active(p) ==> Clear(s, fwd, back))
    && (Active(p) && !Stuck(p) ==> Busy(p.queue[0], Sent(p), s, fwd, back))
    && (!Stuck(p) ==> Kept(p, s.files))
  }

  // ---------------------------------------------------------------- the receiving side's steps

  lemma WriteAtEnd(file: string, d: string)
    ensures WriteAt(file, |file|, d) == file + d
  {
    assert file[..|file|] == file;
    assert file + d + "" == file + d;
  }

  lemma BlockArrives(src: Source, pos: nat, s: Inbound, fwd: seq<Frame>, back: seq<Frame>, d: string)
    requires pos <= |src.content| && Open(src, pos, s, fwd, back) && fwd != [] && fwd[0] == Data(d) && d != ""
    ensures var (s', x) := Written(s, d);
      var acks := if x.Some? then [GotFrame(x.value)] else [];
      && (Tame(fwd) ==> Busy(src, pos, s', fwd[1..], back + acks))
      && (forall n :: n in s.files && n != src.name ==> n in s'.files && s'.files[n] == s.files[n])
  {
    hide WriteAt, GotText, Queued, Lost, Carried, Gots;
    var x := s.xfer.value;
    var r := x.received;
    var c, c' := Carried(fwd), Carried(fwd[1..]);
    TakeCarried(fwd);
    assert c[1..] == c';
    assert Payload(c) == d + Payload(c');
    assert src.content[r..pos][..|d|] == d;
    assert src.content[..r] + d == src.content[..r + |d|];
    assert Payload(c') == src.content[r + |d|..pos] by {
      assert src.content[r..pos][|d|..] == src.content[r + |d|..pos];
    }
    WriteAtEnd(s.files[src.name], d);
    assert AllData(c') by {
      assert forall i :: 0 <= i < |c'| ==> c'[i] == c[i + 1];
    }
    if r + |d| < |src.content| {
      assert back + [] == back;
    } else {
      assert src.content[..r + |d|] == src.content;
      var acks := [GotFrame(Written(s, d).1.value)];
      GotsAppend(back, acks);
      OneGot(acks[0]);
      if Tame(fwd) {
        NothingLeft(fwd[1..]);
      }
    }
  }

  lemma OneGot(f: Frame)
    ensures Gots([f]) == if IsGot(f) then [f.arg] else []
  {
    hide IsGot;
    assert [f][1..] == [];
  }

  lemma TakeCarried(fwd: seq<Frame>)
    requires fwd != []
    ensures Carried(fwd) == (if Carries(fwd[0]) then [fwd[0]] else []) + Carried(fwd[1..])
    ensures Gots(fwd) == (if IsGot(fwd[0]) then [fwd[0].arg] else []) + Gots(fwd[1..])
  {
    hide Carries, IsGot;
  }

  lemma {:induction false} CarriedIsTame(fwd: seq<Frame>)
    requires Tame(fwd)
    ensures Tame(Carried(fwd))
  {
    hide TameFrame, Carries;
    if fwd != [] {
      CarriedIsTame(fwd[1..]);
    }
  }

  /** Blocks are not empty, so blocks without content are none. */
  lemma NothingLeft(fwd: seq<Frame>)
    requires Tame(fwd) && AllData(Carried(fwd)) && Payload(Carried(fwd)) == ""
    ensures Carried(fwd) == []
  {
    hide Carried, Carries, PlainName, GotName;
    CarriedIsTame(fwd);
    SomePayload(Carried(fwd));
  }

  lemma SomePayload(c: seq<Frame>)
    requires Tame(c) && AllData(c)
    ensures c != [] ==> |Payload(c)| > 0
  {
    hide PlainName, GotName;
    if c != [] {
      assert TameFrame(c[0]);
    }
  }

  lemma AnnouncementArrives(src: Source, pos: nat, s: Inbound, fwd: seq<Frame>, back: seq<Frame>, takes: bool)
    requires pos <= |src.content| && Queued(src, pos, s, fwd, back) && fwd != [] && Carries(fwd[0])
    requires PlainName(src.name) && Storable(src)
    ensures var (s', acks) := Absorbed(s, fwd[0], takes);
      && Busy(src, pos, s', fwd[1..], back + acks)
      && (forall n :: n in s.files && n != src.name ==> n in s'.files && s'.files[n] == s.files[n])
  {
    hide WriteAt, GotText, Landed, Carried, Gots, FileText, ParseFileArg;
    TakeCarried(fwd);
    var c, c' := Carried(fwd), Carried(fwd[1..]);
    assert c[1..] == c';
    assert fwd[0] == FileFrame(src, 0);
    FileArgRoundTrip(FileArg(src.name, |src.content|, src.mtime, 0));
    assert back + [] == back;
    var (s', acks) := Absorbed(s, fwd[0], takes);
    if takes && |src.content| > 0 {
      assert src.content[0..pos] == src.content[..pos];
      assert Open(src, pos, s', fwd[1..], back + acks);
    } else {
      assert Lost(s', fwd[1..], back + acks);
    }
  }

  /** The other side reads a frame that is neither block nor announcement, or a block it ignores. */
  lemma NothingArrives(src: Source, pos: nat, s: Inbound, fwd: seq<Frame>, back: seq<Frame>, takes: bool)
    requires pos <= |src.content| && Busy(src, pos, s, fwd, back) && fwd != []
    requires Carries(fwd[0]) ==> Lost(s, fwd, back)
    ensures Absorbed(s, fwd[0], takes) == (s, []) && Busy(src, pos, s, fwd[1..], back + [])
  {
    hide WriteAt, GotText, Gots, Carried, FileText, Begun, Payload;
    TakeCarried(fwd);
    assert back + [] == back;
    if Carries(fwd[0]) {
      assert Carried(fwd)[0] == fwd[0];
      assert forall i :: 0 <= i < |Carried(fwd[1..])| ==> Carried(fwd[1..])[i] == Carried(fwd)[i + 1];
    } else {
      assert Carried(fwd) == Carried(fwd[1..]);
    }
  }

  lemma FrameArrives(src: Source, pos: nat, s: Inbound, fwd: seq<Frame>, back: seq<Frame>, takes: bool)
    requires pos <= |src.content| && Busy(src, pos, s, fwd, back) && fwd != [] && Tame(fwd)
    requires PlainName(src.name) && Storable(src)
    ensures var (s', acks) := Absorbed(s, fwd[0], takes);
      && Busy(src, pos, s', fwd[1..], back + acks)
      && (forall n :: n in s.files && n != src.name ==> n in s'.files && s'.files[n] == s.files[n])
  {
    hide Written, Begun, Carried, Gots, Payload, FileFrame, GotFrame, GotText, PlainName;
    if !Carries(fwd[0]) || Lost(s, fwd, back) {
      NothingArrives(src, pos, s, fwd, back, takes);
    } else {
      TakeCarried(fwd);
      assert Carried(fwd)[0] == fwd[0];
      if Queued(src, pos, s, fwd, back) {
        AnnouncementArrives(src, pos, s, fwd, back, takes);
      } else {
        assert TameFrame(fwd[0]);
        BlockArrives(src, pos, s, fwd, back, fwd[0].payload);
      }
    }
  }

  lemma AbsorbKeeps(p: Party, s: Inbound, fwd: seq<Frame>, back: seq<Frame>, takes: bool)
    requires Flow(p, s, fwd, back) && fwd != [] && Tame(fwd)
    ensures var (s', acks) := Absorbed(s, fwd[0], takes); Flow(p, s', fwd[1..], back + acks)
  {
    hide Absorbed, Busy, Carried, Gots, Ledger, PlainName, Storable;
    if Active(p) {
      if !Stuck(p) {
        FrameArrives(p.queue[0], Sent(p), s, fwd, back, takes);
      }
    } else {
      ClearStays(s, fwd, back, takes);
    }
  }

  lemma ClearStays(s: Inbound, fwd: seq<Frame>, back: seq<Frame>, takes: bool)
    requires Clear(s, fwd, back) && fwd != []
    ensures Absorbed(s, fwd[0], takes) == (s, []) && Clear(s, fwd[1..], back + [])
  {
    hide Carried, Gots, Begun, Written;
    TakeCarried(fwd);
    assert back + [] == back;
  }

  lemma AbortKeeps(p: Party, s: Inbound, fwd: seq<Frame>, back: seq<Frame>)
    requires Flow(p, s, fwd, back)
    ensures Flow(p, Aborted(s), fwd, back)
  {
    hide Carried, Gots, Ledger, PlainName, Storable, Payload, FileFrame;
  }

  /** A frame the receiving half does not look at. */
  lemma PassKeeps(p: Party, s: Inbound, fwd: seq<Frame>, back: seq<Frame>)
    requires Flow(p, s, fwd, back) && fwd != [] && !Carries(fwd[0])
    ensures Flow(p, s, fwd[1..], back)
  {
    hide Carried, Gots, Ledger, PlainName, Storable, Payload, FileFrame, Carries, Kept;
    TakeCarried(fwd);
    assert [] + Carried(fwd[1..]) == Carried(fwd[1..]);
  }

  predicate NoGots(out: seq<Frame>) {
    forall i :: 0 <= i < |out| ==> !IsGot(out[i])
  }

  lemma {:induction false} NoGotsNone(out: seq<Frame>)
    requires NoGots(out)
    ensures Gots(out) == []
  {
    hide IsGot;
    if out != [] {
      NoGotsNone(out[1..]);
    }
  }

  /** The other side writes frames of its own. */
  lemma OwnFramesKeep(p: Party, s: Inbound, fwd: seq<Frame>, back: seq<Frame>, out: seq<Frame>)
    requires Flow(p, s, fwd, back) && NoGots(out)
    ensures Flow(p, s, fwd, back + out)
  {
    hide Carried, Gots, Ledger, PlainName, Storable, Payload, FileFrame, Kept, IsGot;
    NoGotsNone(out);
    GotsAppend(back, out);
    assert Gots(back) + [] == Gots(back);
  }

  lemma ConcludedShape(p: Party, v: Verdict)
    requires p.queue != []
    ensures Concluded(p, v).0.inbound == p.inbound && NoGots(Concluded(p, v).1)
  {
    hide FileFrame;
  }

  lemma ReceiverKeeps(p: Party, q: Party, fwd: seq<Frame>, back: seq<Frame>, m: Move)
    requires Flow(p, q.inbound, fwd, back) && Tame(fwd)
    ensures var o := PartyStep(q, fwd, m); Flow(p, o.party.inbound, o.rest, back + o.out)
  {
    hide Flow, Absorbed, Concluded, FileFrame, Carries, ControlVerdict, WaitVerdict, Tame, Announced, Aborted;
    var o := PartyStep(q, fwd, m);
    assert back + [] == back;
    if q.alive && m == Take && fwd != [] && Active(q) && !q.phase.Sending? {
      var (s, acks) := Absorbed(q.inbound, fwd[0], q.hasDir);
      var v := if q.phase.Waiting? then WaitVerdict(fwd[0], q.queue[0], q.hasDir) else ControlVerdict(fwd[0], q.queue[0], q.hasDir);
      AbsorbKeeps(p, q.inbound, fwd, back, q.hasDir);
      ConcludedShape(q.(inbound := s), v);
      var out := Concluded(q.(inbound := s), v).1;
      OwnFramesKeep(p, s, fwd[1..], back + acks, out);
      assert back + acks + out == back + (acks + out);
    } else if q.alive && m == Take && fwd != [] && q.phase.Receiving? {
      FedKeeps(p, q, fwd, back);
    } else {
      OwnFramesKeep(p, q.inbound, fwd, back, o.out);
      AbortKeeps(p, q.inbound, fwd, back + o.out);
    }
  }

  lemma FedKeeps(p: Party, q: Party, fwd: seq<Frame>, back: seq<Frame>)
    requires Flow(p, q.inbound, fwd, back) && Tame(fwd) && fwd != []
    ensures var (r, out) := Fed(q, fwd[0]); Flow(p, r.inbound, fwd[1..], back + out)
  {
    hide Flow, Absorbed, Tame, Announced, Aborted;
    assert back + [] == back;
    var f := fwd[0];
    if EndsBatch(f) || (f.Command? && f.cmd == M_ERR) {
      PassKeeps(p, q.inbound, fwd, back);
      AbortKeeps(p, q.inbound, fwd[1..], back);
      OwnFramesKeep(p, Aborted(q.inbound), fwd[1..], back, Fed(q, f).1);
    } else {
      AbsorbKeeps(p, q.inbound, fwd, back, true);
    }
  }

  // ---------------------------------------------------------------- the sending side's steps

  predicate PlainOpen(s: Inbound) {
    s.xfer.Some? ==> PlainName(s.xfer.value.name)
  }

  lemma AbsorbedTame(s: Inbound, f: Frame, takes: bool)
    requires PlainOpen(s)
    ensures PlainOpen(Absorbed(s, f, takes).0) && Tame(Absorbed(s, f, takes).1)
    ensures Carried(Absorbed(s, f, takes).1) == []
  {
    hide WriteAt, NoSpace, GotText, GotName, Announced;
    if f.Data? {
      var x := Written(s, f.payload).1;
      if x.Some? {
        GotNameRoundTrip(x.value.name, x.value.size, x.value.mtime);
        assert [GotFrame(x.value)][1..] == [];
      }
    } else {
      AnnouncedIsPlain(f.arg);
    }
  }

  /** Between parties that run this code no frame asks for a restart or a skip. */
  lemma TameVerdict(f: Frame, src: Source, hasDir: bool)
    requires TameFrame(f)
    ensures ControlVerdict(f, src, hasDir) == Continue || ControlVerdict(f, src, hasDir) == Failed
    ensures IsGot(f) ==> ControlVerdict(f, src, hasDir) == Continue
    ensures WaitVerdict(f, src, hasDir) ==
      if IsGot(f) then (if GotName(f.arg) == src.name then Delivered else Continue) else ControlVerdict(f, src, hasDir)
  {
    hide GotName, Announced, PlainName;
  }

  lemma BlockSent(src: Source, pos: nat, n: nat, s: Inbound, fwd: seq<Frame>, back: seq<Frame>)
    requires n > 0 && pos + n <= |src.content| && Busy(src, pos, s, fwd, back)
    ensures Busy(src, pos + n, s, fwd + [Data(src.content[pos..pos + n])], back)
  {
    hide Carried, Gots, Payload, FileFrame, Landed;
    var d := src.content[pos..pos + n];
    var c := Carried(fwd);
    OneCarried(Data(d));
    CarriedAppend(fwd, [Data(d)]);
    if Queued(src, pos, s, fwd, back) {
      assert (c + [Data(d)])[1..] == c[1..] + [Data(d)];
      PayloadSnoc(c[1..], d);
      assert src.content[..pos] + d == src.content[..pos + n];
      assert Queued(src, pos + n, s, fwd + [Data(d)], back);
    } else if Open(src, pos, s, fwd, back) {
      PayloadSnoc(c, d);
      var r := s.xfer.value.received;
      assert src.content[r..pos] + d == src.content[r..pos + n];
      assert Open(src, pos + n, s, fwd + [Data(d)], back);
    } else if Landed(src, pos, s, fwd, back) {
      NotLandedEarly(src, pos, s, fwd, back);
    }
  }

  lemma NotLandedEarly(src: Source, pos: nat, s: Inbound, fwd: seq<Frame>, back: seq<Frame>)
    requires Landed(src, pos, s, fwd, back)
    ensures pos == |src.content| > 0
  {
  }

  lemma OneCarried(f: Frame)
    ensures Carried([f]) == if Carries(f) then [f] else []
  {
    hide Carries;
    assert [f][1..] == [];
  }

  /** Acknowledgements and ends of batch do not touch what is under way. */
  lemma UncarriedKeeps(p: Party, s: Inbound, fwd: seq<Frame>, back: seq<Frame>, out: seq<Frame>)
    requires Flow(p, s, fwd, back) && Carried(out) == []
    ensures Flow(p, s, fwd + out, back)
  {
    hide Carried, Gots, Ledger, PlainName, Storable, Payload, FileFrame, Kept;
    CarriedAppend(fwd, out);
    assert Carried(fwd) + [] == Carried(fwd);
  }

  /** Reading a frame that is no acknowledgement. */
  lemma ReadKeeps(p: Party, s: Inbound, fwd: seq<Frame>, back: seq<Frame>)
    requires Flow(p, s, fwd, back) && back != [] && (!IsGot(back[0]) || Stuck(p) || !Active(p))
    ensures Flow(p, s, fwd, back[1..])
  {
    hide Carried, Gots, Ledger, PlainName, Storable, Payload, FileFrame, Kept, IsGot;
    TakeCarried(back);
    assert [] + Gots(back[1..]) == Gots(back[1..]);
  }

  lemma LedgerSnoc(done: seq<Source>, src: Source)
    ensures Ledger(done + [src]) == Ledger(done)[src.name := src.content]
  {
    assert (done + [src])[..|done|] == done;
  }

  /** The acknowledgement of the current file is read: the file lies complete at the other end. */
  lemma DeliveryKeeps(p: Party, s: Inbound, fwd: seq<Frame>, back: seq<Frame>)
    requires Flow(p, s, fwd, back) && back != [] && IsGot(back[0]) && p.phase.Waiting? && Active(p) && !Stuck(p)
    ensures Landed(p.queue[0], Sent(p), s, fwd, back)
    ensures Flow(Concluded(p, Delivered).0, s, fwd, back[1..])
  {
    hide Carried, Gots, Ledger, PlainName, Storable, Payload, FileFrame, GotText;
    var src := p.queue[0];
    TakeCarried(back);
    assert Gots(back)[0] == back[0].arg;
    var q := Concluded(p, Delivered).0;
    LedgerSnoc(p.done, src);
    assert Gots(back[1..]) == [];
    assert Clear(s, fwd, back[1..]);
    assert !Active(q);
  }

  /** No acknowledgement can be under way right after an announcement. */
  lemma NoEarlyGot(p: Party, s: Inbound, fwd: seq<Frame>, back: seq<Frame>)
    requires Flow(p, s, fwd, back) && back != [] && p.phase.Opened? && Active(p) && !Stuck(p)
    ensures !IsGot(back[0])
  {
    hide Carried, Gots, Ledger, PlainName, Storable, Payload, FileFrame, GotText, Kept;
    TakeCarried(back);
  }

  lemma InterruptedKeeps(p: Party, s: Inbound, fwd: seq<Frame>, back: seq<Frame>)
    requires Flow(p, s, fwd, back) && Tame(back) && back != [] && Active(p) && !p.phase.Sending? && PlainOpen(p.inbound)
    ensures var (q, out) := Interrupted(p, back[0]); Flow(q, s, fwd + out, back[1..]) && Tame(out) && PlainOpen(q.inbound)
  {
    hide Flow, Absorbed, Concluded, Carries, ControlVerdict, WaitVerdict, PlainOpen, GotName, PlainName, Carried, Storable;
    var f, src := back[0], p.queue[0];
    assert TameFrame(f);
    var (i, acks) := Absorbed(p.inbound, f, p.hasDir);
    AbsorbedTame(p.inbound, f, p.hasDir);
    TameVerdict(f, src, p.hasDir);
    var p' := p.(inbound := i);
    InboundIsOther(p, p', s, fwd, back);
    var v := if p.phase.Waiting? then WaitVerdict(f, src, p.hasDir) else ControlVerdict(f, src, p.hasDir);
    var (q, out) := Concluded(p', v);
    NoReply(p', v);
    assert acks + out == acks;
    if IsGot(f) && !Stuck(p) {
      if p.phase.Opened? {
        NoEarlyGot(p, s, fwd, back);
      } else {
        DeliveryKeeps(p', s, fwd, back);
        OwnName(src, f, s, fwd, back);
        UncarriedKeeps(q, s, fwd, back[1..], acks);
      }
    } else {
      ReadKeeps(p', s, fwd, back);
      UncarriedKeeps(p', s, fwd, back[1..], acks);
      GoesOn(p', v, s, fwd + acks, back[1..]);
    }
  }

  lemma OwnName(src: Source, f: Frame, s: Inbound, fwd: seq<Frame>, back: seq<Frame>)
    requires Landed(src, |src.content|, s, fwd, back) && back != [] && back[0] == f && IsGot(f) && PlainName(src.name)
    ensures GotName(f.arg) == src.name
  {
    hide Gots, GotText, GotName;
    TakeCarried(back);
    assert Gots(back)[0] == f.arg;
    GotNameRoundTrip(src.name, |src.content|, src.mtime);
  }

  lemma NoReply(p: Party, v: Verdict)
    requires p.queue != [] && !v.Restart?
    ensures Concluded(p, v).1 == [] && Concluded(p, v).0.inbound == p.inbound
  {
  }

  /** The sender's own receiving half does not matter for what it sends. */
  lemma InboundIsOther(p: Party, q: Party, s: Inbound, fwd: seq<Frame>, back: seq<Frame>)
    requires Flow(p, s, fwd, back) && q == p.(inbound := q.inbound)
    ensures Flow(q, s, fwd, back)
  {
    hide Busy, Clear, Ledger, PlainName, Storable;
  }

  lemma GoesOn(p: Party, v: Verdict, s: Inbound, fwd: seq<Frame>, back: seq<Frame>)
    requires Flow(p, s, fwd, back) && Active(p) && (v == Continue || v == Failed)
    ensures Flow(Concluded(p, v).0, s, fwd, back)
  {
    hide Busy, Clear, Ledger, PlainName, Storable, FileFrame;
  }

  lemma AnnounceKeeps(p: Party, s: Inbound, fwd: seq<Frame>, back: seq<Frame>)
    requires Flow(p, s, fwd, back) && p.phase.Ready?
    ensures p.queue != [] ==> Flow(p.(phase := Opened(0)), s, fwd + [FileFrame(p.queue[0], 0)], back)
    ensures p.queue == [] ==> Flow(BatchEnded(p).0, s, fwd + BatchEnded(p).1, back)
  {
    hide Carried, Gots, Ledger, PlainName, Storable, FileFrame;
    if p.queue == [] {
      OneCarried(Command(M_EOB, ""));
      CarriedAppend(fwd, [Command(M_EOB, "")]);
    } else {
      var src := p.queue[0];
      IsFile(src);
      OneCarried(FileFrame(src, 0));
      CarriedAppend(fwd, [FileFrame(src, 0)]);
      var c := Carried(fwd + [FileFrame(src, 0)]);
      assert c == [FileFrame(src, 0)];
      assert c[1..] == [] && src.content[..0] == "";
      assert Queued(src, 0, s, fwd + [FileFrame(src, 0)], back);
    }
  }

  lemma IsFile(src: Source)
    ensures Carries(FileFrame(src, 0)) && TameFrame(FileFrame(src, 0))
  {
  }

  lemma BlockKeeps(p: Party, s: Inbound, fwd: seq<Frame>, back: seq<Frame>, n: nat)
    requires Flow(p, s, fwd, back) && Active(p) && p.phase.Sending? && n > 0 && p.phase.pos + n <= |p.queue[0].content|
    ensures Flow(p.(phase := Sending(p.phase.pos + n)), s,
                 fwd + [Data(p.queue[0].content[p.phase.pos..p.phase.pos + n])], back)
  {
    hide Busy, Ledger, PlainName, Storable;
    if !Stuck(p) {
      BlockSent(p.queue[0], p.phase.pos, n, s, fwd, back);
    }
  }

  lemma SenderFedKeeps(p: Party, s: Inbound, fwd: seq<Frame>, back: seq<Frame>)
    requires Flow(p, s, fwd, back) && back != [] && p.phase.Receiving? && PlainOpen(p.inbound)
    ensures var (q, out) := Fed(p, back[0]); Flow(q, s, fwd + out, back[1..]) && Tame(out) && PlainOpen(q.inbound)
  {
    hide Absorbed, PlainName, Carried, Gots, Announced, Kept, Clear;
    var (q, out) := Fed(p, back[0]);
    AbsorbedTame(p.inbound, back[0], true);
    OneCarried(Command(M_EOB, ""));
    NothingCarried();
    ReadKeeps(p, s, fwd, back);
    UncarriedKeeps(p, s, fwd, back[1..], out);
    KeptByDone(p, q, s.files);
  }

  lemma KeptByDone(p: Party, q: Party, files: map<string, string>)
    requires Kept(p, files) && p.done == q.done && !Active(p)
    ensures Kept(q, files)
  {
    hide Ledger;
  }

  lemma NothingCarried()
    ensures Carried([]) == []
  {
  }

  lemma SenderKeeps(p: Party, s: Inbound, fwd: seq<Frame>, back: seq<Frame>, m: Move)
    requires Flow(p, s, fwd, back) && Tame(back) && PlainOpen(p.inbound)
    ensures var o := PartyStep(p, back, m);
      Flow(o.party, s, fwd + o.out, o.rest) && Tame(o.out) && Tame(o.rest) && PlainOpen(o.party.inbound)
  {
    hide Flow, Interrupted, Fed, BatchEnded, FileFrame, TameFrame, PlainName, Storable;
    var o := PartyStep(p, back, m);
    assert fwd + [] == fwd;
    if p.alive {
      match m
      case Announce =>
        if p.phase.Ready? {
          AnnounceKeeps(p, s, fwd, back);
          if p.queue != [] { IsFile(p.queue[0]); } else { BatchEndTame(p); }
        }
      case Block(n) =>
        if o.out != [] {
          BlockKeeps(p, s, fwd, back, n);
          BlockTame(p.queue[0].content[p.phase.pos..p.phase.pos + n]);
        }
      case Take =>
        if back != [] && Active(p) && !p.phase.Sending? {
          InterruptedKeeps(p, s, fwd, back);
        } else if back != [] && p.phase.Receiving? {
          SenderFedKeeps(p, s, fwd, back);
        }
      case _ =>
        QuietKeeps(p, s, fwd, back, m);
    }
  }

  lemma BatchEndTame(p: Party)
    ensures Tame(BatchEnded(p).1) && (PlainOpen(p.inbound) ==> PlainOpen(BatchEnded(p).0.inbound))
  {
    hide PlainName;
  }

  lemma BlockTame(d: string)
    requires d != ""
    ensures Tame([Data(d)])
  {
    hide PlainName;
  }

  lemma QuietKeeps(p: Party, s: Inbound, fwd: seq<Frame>, back: seq<Frame>, m: Move)
    requires Flow(p, s, fwd, back) && p.alive && (m == Quit || m == Timeout || m == Finish)
    ensures Flow(PartyStep(p, back, m).party, s, fwd, back) && PartyStep(p, back, m).party.inbound == p.inbound
  {
    hide Busy, Clear, Ledger, PlainName, Storable;
  }

  // ---------------------------------------------------------------- every run

  predicate Sound(s: Pair) {
    && Flow(s.a, s.b.inbound, s.ab, s.ba) && Flow(s.b, s.a.inbound, s.ba, s.ab)
    && Tame(s.ab) && Tame(s.ba) && PlainOpen(s.a.inbound) && PlainOpen(s.b.inbound)
  }

  lemma TameAppend(x: seq<Frame>, y: seq<Frame>)
    requires Tame(x) && Tame(y)
    ensures Tame(x + y)
  {
    hide TameFrame;
  }

  lemma StepKeepsSound(s: Pair, t: Turn)
    requires Sound(s)
    ensures Sound(Step(s, t))
  {
    hide Flow, PartyStep, Tame, PlainOpen;
    if t.first {
      SenderKeeps(s.a, s.b.inbound, s.ab, s.ba, t.move);
      ReceiverKeeps(s.b, s.a, s.ba, s.ab, t.move);
      TameAppend(s.ab, PartyStep(s.a, s.ba, t.move).out);
    } else {
      SenderKeeps(s.b, s.a.inbound, s.ba, s.ab, t.move);
      ReceiverKeeps(s.a, s.b, s.ab, s.ba, t.move);
      TameAppend(s.ba, PartyStep(s.b, s.ab, t.move).out);
    }
  }

  lemma StartIsSound(s: Pair)
    requires Start(s)
    ensures Sound(s)
  {
    hide Storable;
    NothingCarried();
    assert Gots([]) == [];
  }

  lemma {:induction false} RunIsSound(s: Pair, turns: seq<Turn>)
    requires Start(s)
    ensures Sound(Run(s, turns))
    decreases |turns|
  {
    hide Sound, Start, Step;
    if turns == [] {
      StartIsSound(s);
    } else {
      RunIsSound(s, turns[..|turns| - 1]);
      StepKeepsSound(Run(s, turns[..|turns| - 1]), turns[|turns| - 1]);
    }
  }

  /** The other side holds every acknowledged file, with the last content acknowledged under its name. */
  predicate Delivers(p: Party, q: Party) {
    forall n :: n in Ledger(p.done) ==> n in q.inbound.files && q.inbound.files[n] == Ledger(p.done)[n]
  }

  /** In every state that any run can reach, a side that is not in the middle of a file finds all it counts
      as sent in the other side's files. */
  lemma AcknowledgedIsDelivered(s: Pair, turns: seq<Turn>)
    requires Start(s)
    ensures var r := Run(s, turns);
      (!Active(r.a) ==> Delivers(r.a, r.b)) && (!Active(r.b) ==> Delivers(r.b, r.a))
  {
    hide Run, Ledger, Clear, Busy, Storable, PlainName, Tame;
    RunIsSound(s, turns);
  }

  lemma DoneGrows(p: Party, input: seq<Frame>, m: Move)
    ensures var q := PartyStep(p, input, m).party;
      q.done != p.done ==> p.queue != [] && q.done == p.done + [p.queue[0]] && !Active(q)
  {
    hide Absorbed, ControlVerdict, WaitVerdict, FileFrame, EndsBatch, Announced;
  }

  /** A file was acknowledged in this step, and the other side holds it. */
  predicate JustDelivered(before: Party, after: Party, other: Party) {
    && before.queue != []
    && var src := before.queue[0];
    && after.done == before.done + [src]
    && src.name in other.inbound.files && other.inbound.files[src.name] == src.content
  }

  lemma DeliveredByFlow(p: Party, input: seq<Frame>, m: Move, q: Party, fwd: seq<Frame>, back: seq<Frame>)
    requires var p' := PartyStep(p, input, m).party; p'.done != p.done && Flow(p', q.inbound, fwd, back)
    ensures JustDelivered(p, PartyStep(p, input, m).party, q)
  {
    hide PartyStep, Clear, Busy, Storable, PlainName, Ledger;
    DoneGrows(p, input, m);
    LedgerSnoc(p.done, p.queue[0]);
    assert p.queue[0].name in Ledger(p.done + [p.queue[0]]);
  }

  /** The moment `sendFile` returns, the other side's file is the source. */
  lemma DeliveredNow(s: Pair, turns: seq<Turn>, t: Turn)
    requires Start(s)
    ensures var r := Run(s, turns);
      var r' := Step(r, t);
      && (r'.a.done != r.a.done ==> JustDelivered(r.a, r'.a, r'.b))
      && (r'.b.done != r.b.done ==> JustDelivered(r.b, r'.b, r'.a))
  {
    hide Run, Flow, Tame, PartyStep, JustDelivered, PlainOpen;
    RunIsSound(s, turns);
    var r := Run(s, turns);
    StepKeepsSound(r, t);
    var r' := Step(r, t);
    if r'.a.done != r.a.done {
      DeliveredByFlow(r.a, r.ba, t.move, r'.b, r'.ab, r'.ba);
    } else if r'.b.done != r.b.done {
      DeliveredByFlow(r.b, r.ab, t.move, r'.a, r'.ba, r'.ab);
    }
  }

  lemma OrderKept(p: Party, input: seq<Frame>, m: Move)
    requires Tame(input)
    ensures var o := PartyStep(p, input, m); o.party.done + o.party.queue == p.done + p.queue
  {
    hide Absorbed, ControlVerdict, WaitVerdict, FileFrame, TameFrame, EndsBatch, Announced;
    if input != [] && Active(p) {
      assert TameFrame(input[0]);
      TameVerdict(input[0], p.queue[0], p.hasDir);
      assert p.done + [p.queue[0]] + p.queue[1..] == p.done + p.queue;
    }
  }

  /** No file is skipped, repeated or reordered: what is done and what is left are what was to be sent. */
  lemma {:induction false} NothingSkipped(s: Pair, turns: seq<Turn>)
    requires Start(s)
    ensures Run(s, turns).a.done + Run(s, turns).a.queue == s.a.queue
    ensures Run(s, turns).b.done + Run(s, turns).b.queue == s.b.queue
    decreases |turns|
  {
    hide PartyStep, Flow, PlainOpen, Tame;
    if turns == [] {
      assert [] + s.a.queue == s.a.queue && [] + s.b.queue == s.b.queue;
    } else {
      var front, t := turns[..|turns| - 1], turns[|turns| - 1];
      NothingSkipped(s, front);
      RunIsSound(s, front);
      var r := Run(s, front);
      OrderKept(r.a, r.ba, t.move);
      OrderKept(r.b, r.ab, t.move);
    }
  }

  // ---------------------------------------------------------------- a run that delivers

  lemma SendsOneBlock(p: Party, src: Source)
    requires p.alive && p.queue == [src] && p.phase == Ready && 0 < |src.content| <= BLOCK
    ensures var n := |src.content|;
      && PartyStep(p, [], Announce) == Outcome(p.(phase := Opened(0)), [], [FileFrame(src, 0)])
      && PartyStep(p.(phase := Opened(0)), [], Timeout) == Outcome(p.(phase := Sending(0)), [], [])
      && PartyStep(p.(phase := Sending(0)), [], Block(n)) == Outcome(p.(phase := Sending(n)), [], [Data(src.content)])
      && PartyStep(p.(phase := Sending(n)), [], Finish) == Outcome(p.(phase := Waiting), [], [])
  {
    hide FileFrame;
    assert src.content[0..|src.content|] == src.content;
  }

  lemma TakesAnnouncement(q: Party, src: Source, rest: seq<Frame>)
    requires q.alive && q.phase == Receiving && PlainName(src.name) && Storable(src) && |src.content| > 0
    ensures PartyStep(q, [FileFrame(src, 0)] + rest, Take)
         == Outcome(q.(inbound := Inbound(Some(Xfer(src.name, |src.content|, src.mtime, 0)), q.inbound.files[src.name := ""])), rest, [])
  {
    hide FileFrame, Announced, PlainName;
    FileIsAnnounced(src);
    assert ([FileFrame(src, 0)] + rest)[1..] == rest;
  }

  lemma TakesBlock(q: Party, src: Source)
    requires q.alive && q.phase == Receiving && |src.content| > 0
    requires q.inbound.xfer == Some(Xfer(src.name, |src.content|, src.mtime, 0))
    ensures var o := PartyStep(q, [Data(src.content)], Take);
      o.rest == [] && o.out == [Command(M_GOT, GotText(src.name, |src.content|, src.mtime))]
  {
    hide WriteAt, GotText;
  }

  lemma TakesGot(p: Party, src: Source)
    requires p.alive && p.queue == [src] && p.phase == Waiting && PlainName(src.name)
    ensures PartyStep(p, [Command(M_GOT, GotText(src.name, |src.content|, src.mtime))], Take).party.done == p.done + [src]
  {
    hide GotText, GotName, NoSpace;
    GotNameRoundTrip(src.name, |src.content|, src.mtime);
  }

  /** Seven turns carry a file of one block across, so the theorems above speak of runs that exist. */
  lemma OneBlockGoesAcross(s: Pair, src: Source) returns (turns: seq<Turn>)
    requires Start(s) && s.a.role == Caller && s.b.role == Answerer && s.a.queue == [src]
    requires PlainName(src.name) && 0 < |src.content| <= BLOCK
    ensures Run(s, turns).a.done == [src]
  {
    hide FileFrame, GotText, PlainName, PartyStep, Run, Storable, Step;
    assert s.a.queue[0] == src;
    var r1, r2, r3, r4 := SentAcross(s, src);
    AcknowledgedAcross(r4, src);
    var t4 := FourSteps(s, Turn(true, Announce), Turn(true, Timeout), Turn(true, Block(|src.content|)), Turn(true, Finish));
    RunSnoc(s, t4, Turn(false, Take));
    RunSnoc(s, t4 + [Turn(false, Take)], Turn(false, Take));
    RunSnoc(s, t4 + [Turn(false, Take)] + [Turn(false, Take)], Turn(true, Take));
    turns := t4 + [Turn(false, Take)] + [Turn(false, Take)] + [Turn(true, Take)];
  }

  lemma FirstMoves(s: Pair, m: Move)
    ensures var o := PartyStep(s.a, s.ba, m);
      var r := Step(s, Turn(true, m));
      && r.a == o.party && r.b == s.b && r.ba == o.rest
      && (o.out == [] ==> r.ab == s.ab) && (s.ab == [] ==> r.ab == o.out) && r.ab == s.ab + o.out
  {
    hide PartyStep;
    assert s.ab + [] == s.ab;
    assert [] + PartyStep(s.a, s.ba, m).out == PartyStep(s.a, s.ba, m).out;
  }

  lemma SecondMoves(s: Pair, m: Move)
    ensures var o := PartyStep(s.b, s.ab, m);
      var r := Step(s, Turn(false, m));
      && r.b == o.party && r.a == s.a && r.ab == o.rest
      && (o.out == [] ==> r.ba == s.ba) && (s.ba == [] ==> r.ba == o.out)
  {
    hide PartyStep;
    assert s.ba + [] == s.ba;
    assert [] + PartyStep(s.b, s.ab, m).out == PartyStep(s.b, s.ab, m).out;
  }

  lemma SentAcross(s: Pair, src: Source) returns (r1: Pair, r2: Pair, r3: Pair, r4: Pair)
    requires s.a.alive && s.a.queue == [src] && s.a.phase == Ready && 0 < |src.content| <= BLOCK
    requires s.ab == [] && s.ba == []
    ensures r1 == Step(s, Turn(true, Announce)) && r2 == Step(r1, Turn(true, Timeout))
    ensures r3 == Step(r2, Turn(true, Block(|src.content|))) && r4 == Step(r3, Turn(true, Finish))
    ensures r4 == Pair(s.a.(phase := Waiting), s.b, [FileFrame(src, 0)] + [Data(src.content)], [])
  {
    hide FileFrame, PartyStep, Step;
    SendsOneBlock(s.a, src);
    r1 := Step(s, Turn(true, Announce));
    FirstMoves(s, Announce);
    r2 := Step(r1, Turn(true, Timeout));
    FirstMoves(r1, Timeout);
    r3 := Step(r2, Turn(true, Block(|src.content|)));
    FirstMoves(r2, Block(|src.content|));
    r4 := Step(r3, Turn(true, Finish));
    FirstMoves(r3, Finish);
  }

  lemma FileIsAnnounced(src: Source)
    requires PlainName(src.name) && Storable(src) && |src.content| > 0
    ensures var f := FileFrame(src, 0);
      f.Command? && f.cmd == M_FILE && Announced(f.arg) == Some(Xfer(src.name, |src.content|, src.mtime, 0))
  {
    hide FileText, ParseFileArg, NoSpace;
    FileArgRoundTrip(FileArg(src.name, |src.content|, src.mtime, 0));
  }

  lemma RunSnoc(s: Pair, turns: seq<Turn>, t: Turn)
    ensures Run(s, turns + [t]) == Step(Run(s, turns), t)
  {
    hide Step;
    assert (turns + [t])[..|turns|] == turns;
  }

  lemma AcknowledgedAcross(r: Pair, src: Source)
    requires r.a.alive && r.a.queue == [src] && r.a.phase == Waiting && r.a.done == [] && r.ba == []
    requires r.b.alive && r.b.phase == Receiving && r.ab == [FileFrame(src, 0)] + [Data(src.content)]
    requires PlainName(src.name) && Storable(src) && |src.content| > 0
    ensures Step(Step(Step(r, Turn(false, Take)), Turn(false, Take)), Turn(true, Take)).a.done == [src]
  {
    hide FileFrame, GotText, PlainName, PartyStep, Storable, Step;
    TakesAnnouncement(r.b, src, [Data(src.content)]);
    SecondMoves(r, Take);
    var r5 := Step(r, Turn(false, Take));
    TakesBlock(r5.b, src);
    SecondMoves(r5, Take);
    var r6 := Step(r5, Turn(false, Take));
    TakesGot(r6.a, src);
    FirstMoves(r6, Take);
  }

  lemma FourSteps(s: Pair, a: Turn, b: Turn, c: Turn, d: Turn) returns (turns: seq<Turn>)
    ensures Run(s, turns) == Step(Step(Step(Step(s, a), b), c), d)
  {
    hide Step;
    assert Run(s, []) == s;
    hide Run;
    RunSnoc(s, [], a);
    RunSnoc(s, [] + [a], b);
    RunSnoc(s, [] + [a] + [b], c);
    RunSnoc(s, [] + [a] + [b] + [c], d);
    turns := [] + [a] + [b] + [c] + [d];
  }
}
