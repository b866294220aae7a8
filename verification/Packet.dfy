/** FTS-0001 Type-2 packets: a header of 58 octets, messages of fixed words, a date field of 20 octets
    and four texts that end in NUL, and two NUL octets at the end. The clock is a parameter. */
module Packet {
  import opened Octets
  import Kludges

  datatype Addr = Addr(zone: int, net: int, node: int, point: int)

  datatype Message = Message(orig: Addr, dest: Addr, dateTime: string, toName: string, fromName: string,
                             subject: string, body: string, attrib: U16, cost: U16, area: string, isEcho: bool)

  /** The time of writing: the words of the header and the text that stands in for an empty date. */
  datatype Clock = Clock(year: int, month: int, day: int, hour: int, minute: int, second: int, text: string)

  const HEADER_LEN: nat := 58
  const PREFIX_LEN: nat := 14
  const DATE_LEN: nat := 20
  const NUL: char := '\0'

  /** `uint16(n)` */
  function Word(n: int): U16 {
    n % 0x1_0000
  }

  // ---------------------------------------------------------------- writing

  function Times(orig: Addr, dest: Addr, now: Clock): (s: string)
    ensures |s| == 20
  {
    Le16(Word(orig.node)) + Le16(Word(dest.node)) + Le16(Word(now.year)) + Le16(Word(now.month - 1)) + Le16(Word(now.day))
    + Le16(Word(now.hour)) + Le16(Word(now.minute)) + Le16(Word(now.second)) + Le16(0) + Le16(2)
  }

  function Header(orig: Addr, dest: Addr, password: string, now: Clock): (s: string)
    ensures |s| == HEADER_LEN
  {
    Times(orig, dest, now) + (Le16(Word(orig.net)) + Le16(Word(dest.net)) + Zeros(2) + Padded(password, 8)
    + Le16(Word(orig.zone)) + Le16(Word(dest.zone)) + Zeros(20))
  }

  function Prefix(m: Message): (s: string)
    ensures |s| == PREFIX_LEN
  {
    Le16(2) + Le16(Word(m.orig.node)) + Le16(Word(m.dest.node)) + Le16(Word(m.orig.net)) + Le16(Word(m.dest.net))
    + Le16(m.attrib) + Le16(m.cost)
  }

  function DateText(m: Message, now: Clock): string {
    if m.dateTime == "" then now.text else m.dateTime
  }

  function Texts(m: Message): string {
    m.toName + [NUL] + (m.fromName + [NUL] + (m.subject + [NUL] + (m.body + [NUL])))
  }

  function MessageText(m: Message, now: Clock): string {
    Prefix(m) + (Padded(DateText(m, now), DATE_LEN) + Texts(m))
  }

  function MessageTexts(msgs: seq<Message>, now: Clock): string {
    if msgs == [] then "" else MessageText(msgs[0], now) + MessageTexts(msgs[1..], now)
  }

  /** `WritePacket` */
  function Written(orig: Addr, dest: Addr, password: string, msgs: seq<Message>, now: Clock): string {
    Header(orig, dest, password, now) + (MessageTexts(msgs, now) + [NUL, NUL])
  }

  // ---------------------------------------------------------------- reading

  /** The text in front of the first NUL. */
  function UpToNul(s: string): (r: string)
    ensures r <= s && NUL !in r && (|r| < |s| ==> s[|r|] == NUL)
  {
    if s == [] || s[0] == NUL then [] else [s[0]] + UpToNul(s[1..])
  }

  /** What `readNullStr` leaves. */
  function AfterNul(s: string): (r: string)
    ensures |r| <= |s|
  {
    var n := |UpToNul(s)|;
    if n < |s| then s[n + 1..] else []
  }

  /** An address without a net is the packet's. */
  function Address(pkt: Addr, net: U16, node: U16): Addr {
    if net == 0 then pkt else Addr(pkt.zone, net, node, 0)
  }

  function WordAt(s: string, i: nat): U16
    requires i + 2 <= |s|
  {
    FromLe16(s[i..i + 2])
  }

  /** One message, and what follows it. */
  function MessageAt(s: string, orig: Addr, dest: Addr): (r: (Message, string))
    requires |s| >= PREFIX_LEN + DATE_LEN
    ensures |r.1| < |s|
  {
    var t0 := s[PREFIX_LEN + DATE_LEN..];
    var t1 := AfterNul(t0);
    var t2 := AfterNul(t1);
    var t3 := AfterNul(t2);
    var area := Kludges.Parsed(UpToNul(t3)).areaTag;
    (Message(Address(orig, WordAt(s, 6), WordAt(s, 2)), Address(dest, WordAt(s, 8), WordAt(s, 4)),
             UpToNul(s[PREFIX_LEN..PREFIX_LEN + DATE_LEN]), UpToNul(t0), UpToNul(t1), UpToNul(t2), UpToNul(t3),
             WordAt(s, 10), WordAt(s, 12), area, area != ""),
     AfterNul(t3))
  }

  /** The loop of `ReadPacket` goes on. */
  predicate MoreAt(s: string) {
    |s| >= PREFIX_LEN + DATE_LEN && !(s[0] == NUL && s[1] == NUL) && WordAt(s, 0) == 2
  }

  function MessagesAt(s: string, orig: Addr, dest: Addr): seq<Message>
    decreases |s|
  {
    if !MoreAt(s) then []
    else
      var (m, rest) := MessageAt(s, orig, dest);
      [m] + MessagesAt(rest, orig, dest)
  }

  datatype Outcome = Packet(messages: seq<Message>) | TooShort(length: nat) | Unsupported(packetType: U16)

  function PacketOrig(data: string): Addr
    requires |data| >= HEADER_LEN
  {
    Addr(WordAt(data, 34), WordAt(data, 20), WordAt(data, 0), 0)
  }

  function PacketDest(data: string): Addr
    requires |data| >= HEADER_LEN
  {
    Addr(WordAt(data, 36), WordAt(data, 22), WordAt(data, 2), 0)
  }

  /** `ReadPacket` */
  function Read(data: string): Outcome {
    if |data| < HEADER_LEN then TooShort(|data|)
    else if WordAt(data, 18) != 2 then Unsupported(WordAt(data, 18))
    else Packet(MessagesAt(data[HEADER_LEN..], PacketOrig(data), PacketDest(data)))
  }

  // ---------------------------------------------------------------- reading what was written

  lemma {:induction false} NulEnds(s: string, rest: string)
    requires NUL !in s
    ensures UpToNul(s + [NUL] + rest) == s && AfterNul(s + [NUL] + rest) == rest
  {
    if s == [] {
      assert ([] + [NUL] + rest)[1..] == rest;
    } else {
      assert (s + [NUL] + rest)[1..] == s[1..] + [NUL] + rest;
      NulEnds(s[1..], rest);
    }
  }

  /** The texts of a message hold no NUL. */
  predicate NulFree(m: Message) {
    NUL !in m.toName && NUL !in m.fromName && NUL !in m.subject && NUL !in m.body
  }

  function SentAddr(pkt: Addr): Addr {
    Addr(Word(pkt.zone), Word(pkt.net), Word(pkt.node), 0)
  }

  /** What the reader makes of a message. */
  function Normalised(m: Message, orig: Addr, dest: Addr, now: Clock): Message {
    var area := Kludges.Parsed(m.body).areaTag;
    m.(orig := Address(SentAddr(orig), Word(m.orig.net), Word(m.orig.node)),
       dest := Address(SentAddr(dest), Word(m.dest.net), Word(m.dest.node)),
       dateTime := UpToNul(Padded(DateText(m, now), DATE_LEN)),
       area := area, isEcho := area != "")
  }

  lemma TextsReadBack(m: Message, rest: string)
    requires NulFree(m)
    ensures var t0 := Texts(m) + rest;
      var t1 := AfterNul(t0);
      var t2 := AfterNul(t1);
      var t3 := AfterNul(t2);
      UpToNul(t0) == m.toName && UpToNul(t1) == m.fromName && UpToNul(t2) == m.subject && UpToNul(t3) == m.body && AfterNul(t3) == rest
  {
    hide UpToNul, AfterNul;
    var s3 := m.body + [NUL] + rest;
    var s2 := m.subject + [NUL] + s3;
    var s1 := m.fromName + [NUL] + s2;
    assert Texts(m) + rest == m.toName + [NUL] + s1;
    NulEnds(m.toName, s1);
    NulEnds(m.fromName, s2);
    NulEnds(m.subject, s3);
    NulEnds(m.body, rest);
  }

  lemma PrefixWords(m: Message, rest: string)
    ensures var s := Prefix(m) + rest;
      && WordAt(s, 0) == 2 && WordAt(s, 2) == Word(m.orig.node) && WordAt(s, 4) == Word(m.dest.node)
      && WordAt(s, 6) == Word(m.orig.net) && WordAt(s, 8) == Word(m.dest.net)
      && WordAt(s, 10) == m.attrib && WordAt(s, 12) == m.cost
  {
    hide Prefix, Le16, FromLe16, Word;
    var p := Prefix(m);
    PrefixSlices(m);
    Le16RoundTrip(2);
    Le16RoundTrip(Word(m.orig.node));
    Le16RoundTrip(Word(m.dest.node));
    Le16RoundTrip(Word(m.orig.net));
    Le16RoundTrip(Word(m.dest.net));
    Le16RoundTrip(m.attrib);
    Le16RoundTrip(m.cost);
    SliceLeft(p, rest, 0, 2);
    SliceLeft(p, rest, 2, 4);
    SliceLeft(p, rest, 4, 6);
    SliceLeft(p, rest, 6, 8);
    SliceLeft(p, rest, 8, 10);
    SliceLeft(p, rest, 10, 12);
    SliceLeft(p, rest, 12, 14);
  }

  lemma PrefixSlices(m: Message)
    ensures var p := Prefix(m);
      && p[0..2] == Le16(2) && p[2..4] == Le16(Word(m.orig.node)) && p[4..6] == Le16(Word(m.dest.node))
      && p[6..8] == Le16(Word(m.orig.net)) && p[8..10] == Le16(Word(m.dest.net))
      && p[10..12] == Le16(m.attrib) && p[12..14] == Le16(m.cost)
  {
    hide Le16, Word;
  }

  lemma TypeIsTwo()
    ensures Le16(2)[0] != NUL
  {
  }

  lemma MessageReadBack(m: Message, orig: Addr, dest: Addr, now: Clock, rest: string)
    requires NulFree(m)
    ensures var s := MessageText(m, now) + rest;
      MoreAt(s) && MessageAt(s, SentAddr(orig), SentAddr(dest)) == (Normalised(m, orig, dest, now), rest)
  {
    hide UpToNul, AfterNul, Texts, Prefix, Padded, WordAt, Kludges.Parsed, Word, Le16, DateText;
    var s := MessageText(m, now) + rest;
    var date := Padded(DateText(m, now), DATE_LEN);
    assert s == Prefix(m) + (date + Texts(m) + rest);
    PrefixWords(m, date + Texts(m) + rest);
    PrefixStarts(m);
    TypeIsTwo();
    assert s[PREFIX_LEN..PREFIX_LEN + DATE_LEN] == date;
    assert s[PREFIX_LEN + DATE_LEN..] == Texts(m) + rest;
    TextsReadBack(m, rest);
  }

  lemma PrefixStarts(m: Message)
    ensures Prefix(m)[0] == Le16(2)[0]
  {
    hide Le16;
  }

  lemma {:induction false} MessagesReadBack(msgs: seq<Message>, orig: Addr, dest: Addr, now: Clock)
    requires forall i :: 0 <= i < |msgs| ==> NulFree(msgs[i])
    ensures MessagesAt(MessageTexts(msgs, now) + [NUL, NUL], SentAddr(orig), SentAddr(dest)) == NormalisedAll(msgs, orig, dest, now)
    decreases |msgs|
  {
    hide MessageAt, MessageText, NulFree, SentAddr;
    if msgs == [] {
      assert "" + [NUL, NUL] == [NUL, NUL];
    } else {
      var rest := MessageTexts(msgs[1..], now) + [NUL, NUL];
      assert MessageTexts(msgs, now) + [NUL, NUL] == MessageText(msgs[0], now) + rest;
      MessageReadBack(msgs[0], orig, dest, now, rest);
      MessagesReadBack(msgs[1..], orig, dest, now);
      NormalisedCons(msgs, orig, dest, now);
    }
  }

  function NormalisedAll(msgs: seq<Message>, orig: Addr, dest: Addr, now: Clock): (r: seq<Message>)
    ensures |r| == |msgs| && forall i :: 0 <= i < |r| ==> r[i] == Normalised(msgs[i], orig, dest, now)
  {
    seq(|msgs|, i requires 0 <= i < |msgs| => Normalised(msgs[i], orig, dest, now))
  }

  lemma NormalisedCons(msgs: seq<Message>, orig: Addr, dest: Addr, now: Clock)
    requires msgs != []
    ensures NormalisedAll(msgs, orig, dest, now) == [Normalised(msgs[0], orig, dest, now)] + NormalisedAll(msgs[1..], orig, dest, now)
  {
    hide Normalised;
  }

  lemma TimesSlices(orig: Addr, dest: Addr, now: Clock)
    ensures var t := Times(orig, dest, now);
      t[0..2] == Le16(Word(orig.node)) && t[2..4] == Le16(Word(dest.node)) && t[18..20] == Le16(2)
  {
    hide Le16, Word;
  }

  lemma HeaderSlices(orig: Addr, dest: Addr, password: string, now: Clock)
    ensures var h := Header(orig, dest, password, now);
      && h[0..2] == Le16(Word(orig.node)) && h[2..4] == Le16(Word(dest.node)) && h[18..20] == Le16(2)
      && h[20..22] == Le16(Word(orig.net)) && h[22..24] == Le16(Word(dest.net))
      && h[34..36] == Le16(Word(orig.zone)) && h[36..38] == Le16(Word(dest.zone))
  {
    hide Times, Le16, Word, Padded, Zeros;
    TimesSlices(orig, dest, now);
    var t, h := Times(orig, dest, now), Header(orig, dest, password, now);
    assert h[0..2] == t[0..2] && h[2..4] == t[2..4] && h[18..20] == t[18..20];
  }

  lemma HeaderReadBack(orig: Addr, dest: Addr, password: string, now: Clock, rest: string)
    ensures var data := Header(orig, dest, password, now) + rest;
      && WordAt(data, 18) == 2 && PacketOrig(data) == SentAddr(orig) && PacketDest(data) == SentAddr(dest)
      && data[HEADER_LEN..] == rest
  {
    hide Header, Le16, FromLe16, Word;
    var h := Header(orig, dest, password, now);
    HeaderSlices(orig, dest, password, now);
    Le16RoundTrip(2);
    Le16RoundTrip(Word(orig.node));
    Le16RoundTrip(Word(orig.net));
    Le16RoundTrip(Word(orig.zone));
    Le16RoundTrip(Word(dest.node));
    Le16RoundTrip(Word(dest.net));
    Le16RoundTrip(Word(dest.zone));
    SliceLeft(h, rest, 0, 2);
    SliceLeft(h, rest, 2, 4);
    SliceLeft(h, rest, 18, 20);
    SliceLeft(h, rest, 20, 22);
    SliceLeft(h, rest, 22, 24);
    SliceLeft(h, rest, 34, 36);
    SliceLeft(h, rest, 36, 38);
  }

  /** Any messages whose texts hold no NUL come back in order, each in its normal form. */
  lemma ReadWritten(orig: Addr, dest: Addr, password: string, msgs: seq<Message>, now: Clock)
    requires forall i :: 0 <= i < |msgs| ==> NulFree(msgs[i])
    ensures Read(Written(orig, dest, password, msgs, now)) == Packet(NormalisedAll(msgs, orig, dest, now))
  {
    hide Header, MessageTexts, MessagesAt, NulFree, SentAddr, NormalisedAll;
    HeaderReadBack(orig, dest, password, now, MessageTexts(msgs, now) + [NUL, NUL]);
    MessagesReadBack(msgs, orig, dest, now);
  }

  // ---------------------------------------------------------------- when nothing changes

  /** An address that a message carries as it is: no point, the packet's zone, words of 16 bits, and a net,
      or else the packet's own address. */
  predicate Carried(a: Addr, pkt: Addr) {
    && a.point == 0 && a.zone == Word(pkt.zone)
    && 0 <= a.net < 0x1_0000 && 0 <= a.node < 0x1_0000
    && (a.net == 0 ==> a == SentAddr(pkt))
  }

  predicate IsDateText(d: string) {
    0 < |d| <= DATE_LEN && NUL !in d
  }

  /** What a message must be for a packet to carry it unchanged. */
  predicate Carriable(m: Message, orig: Addr, dest: Addr) {
    && NulFree(m) && Carried(m.orig, orig) && Carried(m.dest, dest) && IsDateText(m.dateTime)
    && m.area == Kludges.Parsed(m.body).areaTag && (m.isEcho <==> m.area != "")
  }

  lemma CarriedIff(a: Addr, pkt: Addr)
    ensures Address(SentAddr(pkt), Word(a.net), Word(a.node)) == a <==> Carried(a, pkt)
  {
  }

  lemma {:induction false} UpToNulStays(s: string)
    ensures UpToNul(s) == s <==> NUL !in s
    ensures s != [] && s[0] != NUL ==> UpToNul(s) != []
  {
    if s != [] && s[0] != NUL {
      UpToNulStays(s[1..]);
    }
  }

  lemma DateIff(m: Message, now: Clock)
    requires IsDateText(now.text)
    ensures UpToNul(Padded(DateText(m, now), DATE_LEN)) == m.dateTime <==> IsDateText(m.dateTime)
  {
    hide UpToNul;
    var d := DateText(m, now);
    var p := Padded(d, DATE_LEN);
    if NUL !in d && |d| <= DATE_LEN {
      if |d| < DATE_LEN {
        assert p == d + [NUL] + Zeros(DATE_LEN - |d| - 1);
        NulEnds(d, Zeros(DATE_LEN - |d| - 1));
      } else {
        assert p == d;
        UpToNulStays(d);
      }
    }
  }

  lemma NormalIff(m: Message, orig: Addr, dest: Addr, now: Clock)
    requires IsDateText(now.text) && NulFree(m)
    ensures Normalised(m, orig, dest, now) == m <==> Carriable(m, orig, dest)
  {
    hide UpToNul, Padded, DateText, Kludges.Parsed, IsDateText, Carried, SentAddr, Word, Address;
    CarriedIff(m.orig, orig);
    CarriedIff(m.dest, dest);
    DateIff(m, now);
  }

  lemma {:induction false} ReadIsNulFree(s: string, orig: Addr, dest: Addr)
    ensures forall i :: 0 <= i < |MessagesAt(s, orig, dest)| ==> NulFree(MessagesAt(s, orig, dest)[i])
    decreases |s|
  {
    hide UpToNul, AfterNul, Address, WordAt, Kludges.Parsed;
    if MoreAt(s) {
      ReadIsNulFree(MessageAt(s, orig, dest).1, orig, dest);
    }
  }

  /** Reading what was written gives the same messages exactly when a packet can carry each of them. */
  lemma PacketRoundTrip(orig: Addr, dest: Addr, password: string, msgs: seq<Message>, now: Clock)
    requires IsDateText(now.text)
    ensures Read(Written(orig, dest, password, msgs, now)) == Packet(msgs)
       <==> forall i :: 0 <= i < |msgs| ==> Carriable(msgs[i], orig, dest)
  {
    hide Written, MessagesAt, NulFree, Normalised, Carried, IsDateText, Kludges.Parsed;
    var data := Written(orig, dest, password, msgs, now);
    if forall i :: 0 <= i < |msgs| ==> NulFree(msgs[i]) {
      ReadWritten(orig, dest, password, msgs, now);
      forall i | 0 <= i < |msgs|
        ensures Normalised(msgs[i], orig, dest, now) == msgs[i] <==> Carriable(msgs[i], orig, dest)
      {
        NormalIff(msgs[i], orig, dest, now);
      }
    } else if Read(data) == Packet(msgs) {
      ReadIsNulFree(data[HEADER_LEN..], PacketOrig(data), PacketDest(data));
    }
  }

  // ---------------------------------------------------------------- as loops

  /** `readNullStr`: the text and how many octets it took. */
  method ReadNullStr(b: string) returns (s: string, adv: nat)
    ensures s == UpToNul(b) && adv <= |b| && b[adv..] == AfterNul(b)
  {
    hide UpToNul;
    var i := 0;
    while i < |b| && b[i] != NUL
      invariant i <= |b| && NUL !in b[..i]
    {
      i := i + 1;
    }
    FirstNul(b, i);
    s := b[..i];
    adv := if i < |b| then i + 1 else i;
    assert b[|b|..] == [];
  }

  lemma {:induction false} FirstNul(b: string, i: nat)
    requires i <= |b| && NUL !in b[..i] && (i < |b| ==> b[i] == NUL)
    ensures UpToNul(b) == b[..i]
  {
    if i > 0 {
      assert b[0] == b[..i][0];
      assert b[1..][..i - 1] == b[..i][1..];
      FirstNul(b[1..], i - 1);
    }
  }

  /** `ReadPacket` */
  method ReadPacket(data: string) returns (r: Outcome)
    ensures r == Read(data)
  {
    hide MessageAt, MessagesAt, UpToNul, AfterNul, Kludges.Parsed;
    if |data| < HEADER_LEN {
      return TooShort(|data|);
    }
    var packetType := WordAt(data, 18);
    if packetType != 2 {
      return Unsupported(packetType);
    }
    var orig, dest := PacketOrig(data), PacketDest(data);
    var pos, msgs := HEADER_LEN, [];
    assert [] + MessagesAt(data[pos..], orig, dest) == MessagesAt(data[pos..], orig, dest);
    while pos < |data|
      invariant HEADER_LEN <= pos <= |data|
      invariant msgs + MessagesAt(data[pos..], orig, dest) == MessagesAt(data[HEADER_LEN..], orig, dest)
      decreases |data| - pos
    {
      var s := data[pos..];
      OneMessage(s, orig, dest);
      assert MoreAt(s) ==> |s| >= PREFIX_LEN + DATE_LEN;
      if pos + 2 <= |data| && data[pos] == NUL && data[pos + 1] == NUL {
        break;
      }
      if pos + PREFIX_LEN > |data| {
        break;
      }
      if WordAt(s, 0) != 2 {
        break;
      }
      var p := pos + PREFIX_LEN;
      if p + DATE_LEN > |data| {
        break;
      }
      var m, adv := ReadMessage(s, orig, dest);
      assert s[adv..] == data[pos + adv..];
      assert msgs + ([m] + MessagesAt(data[pos + adv..], orig, dest)) == msgs + [m] + MessagesAt(data[pos + adv..], orig, dest);
      msgs := msgs + [m];
      pos := pos + adv;
    }
    NoMessage(orig, dest);
    assert pos == |data| ==> data[pos..] == [];
    assert msgs + [] == msgs;
    r := Packet(msgs);
  }

  lemma OneMessage(s: string, orig: Addr, dest: Addr)
    ensures MessagesAt(s, orig, dest) == if !MoreAt(s) then [] else [MessageAt(s, orig, dest).0] + MessagesAt(MessageAt(s, orig, dest).1, orig, dest)
  {
    hide MessageAt;
  }

  lemma NoMessage(orig: Addr, dest: Addr)
    ensures MessagesAt([], orig, dest) == []
  {
  }

  /** The words, the date and the four texts of one message, and how many octets they took. */
  method ReadMessage(s: string, orig: Addr, dest: Addr) returns (m: Message, adv: nat)
    requires |s| >= PREFIX_LEN + DATE_LEN
    ensures adv <= |s| && 0 < adv && MessageAt(s, orig, dest) == (m, s[adv..])
  {
    hide UpToNul, AfterNul, Kludges.Parsed, WordAt;
    var pos := PREFIX_LEN;
    var dateTime, _ := ReadNullStr(s[pos..pos + DATE_LEN]);
    pos := pos + DATE_LEN;
    var toName, fromName, subject, body, n;
    toName, n := ReadNullStr(s[pos..]);
    assert s[pos..][n..] == s[pos + n..];
    pos := pos + n;
    fromName, n := ReadNullStr(s[pos..]);
    assert s[pos..][n..] == s[pos + n..];
    pos := pos + n;
    subject, n := ReadNullStr(s[pos..]);
    assert s[pos..][n..] == s[pos + n..];
    pos := pos + n;
    body, n := ReadNullStr(s[pos..]);
    assert s[pos..][n..] == s[pos + n..];
    pos := pos + n;
    var area := Kludges.Parsed(body).areaTag;
    m := Message(Address(orig, WordAt(s, 6), WordAt(s, 2)), Address(dest, WordAt(s, 8), WordAt(s, 4)),
                 dateTime, toName, fromName, subject, body, WordAt(s, 10), WordAt(s, 12), area, area != "");
    adv := pos;
  }

  /** From here on the buffer is still zero. */
  predicate ZeroFrom(s: string, lo: nat) {
    lo <= |s| && s[lo..] == Zeros(|s| - lo)
  }

  lemma ZeroTail(s: string, lo: nat, hi: nat)
    requires ZeroFrom(s, lo) && lo <= hi <= |s|
    ensures ZeroFrom(s, hi) && s[lo..hi] == Zeros(hi - lo) && s[..hi] == s[..lo] + Zeros(hi - lo)
  {
    assert s[hi..] == s[lo..][hi - lo..];
    assert s[lo..hi] == s[lo..][..hi - lo];
  }

  /** A text copied into a field of a zeroed buffer. */
  method PutField(buf: array<char>, lo: nat, n: nat, t: string)
    requires lo + n <= buf.Length && ZeroFrom(buf[..], lo)
    modifies buf
    ensures buf[..lo + n] == old(buf[..lo]) + Padded(t, n) && ZeroFrom(buf[..], lo + n)
  {
    var c := Cut(t, n);
    ZeroTail(buf[..], lo, lo + |c|);
    ghost var before := buf[..];
    assert before[lo + |c|..] == buf[lo + |c|..] && before[..lo] == buf[..lo];
    Place(buf, lo, c);
    assert buf[..][lo + |c|..] == buf[lo + |c|..];
    ZeroTail(buf[..], lo + |c|, lo + n);
    assert buf[..][..lo + |c|] == buf[..lo + |c|] && buf[..][..lo + n] == buf[..lo + n];
  }

  /** `binary.LittleEndian.PutUint16` */
  method PutWord(buf: array<char>, lo: nat, n: U16)
    requires lo + 2 <= buf.Length && ZeroFrom(buf[..], lo)
    modifies buf
    ensures buf[..lo + 2] == old(buf[..lo]) + Le16(n) && ZeroFrom(buf[..], lo + 2)
  {
    hide Zeros, Le16;
    assert Padded(Le16(n), 2) == Le16(n);
    PutField(buf, lo, 2, Le16(n));
  }

  method PutTimes(hdr: array<char>, orig: Addr, dest: Addr, now: Clock)
    requires hdr.Length == HEADER_LEN && ZeroFrom(hdr[..], 0)
    modifies hdr
    ensures hdr[..20] == Times(orig, dest, now) && ZeroFrom(hdr[..], 20)
  {
    hide Le16, Word, ZeroFrom;
    PutWord(hdr, 0, Word(orig.node));
    assert hdr[..2] == Le16(Word(orig.node));
    PutWord(hdr, 2, Word(dest.node));
    PutWord(hdr, 4, Word(now.year));
    PutWord(hdr, 6, Word(now.month - 1));
    PutWord(hdr, 8, Word(now.day));
    PutClock(hdr, now);
  }

  method PutClock(hdr: array<char>, now: Clock)
    requires hdr.Length == HEADER_LEN && ZeroFrom(hdr[..], 10)
    modifies hdr
    ensures hdr[..20] == old(hdr[..10]) + Le16(Word(now.hour)) + Le16(Word(now.minute)) + Le16(Word(now.second)) + Le16(0) + Le16(2)
    ensures ZeroFrom(hdr[..], 20)
  {
    hide Le16, Word, ZeroFrom;
    PutWord(hdr, 10, Word(now.hour));
    PutWord(hdr, 12, Word(now.minute));
    PutWord(hdr, 14, Word(now.second));
    PutWord(hdr, 16, 0);
    PutWord(hdr, 18, 2);
  }

  /** The header of `WritePacket`, filled in place. */
  method WriteHeader(orig: Addr, dest: Addr, password: string, now: Clock) returns (hdr: array<char>)
    ensures fresh(hdr) && hdr[..] == Header(orig, dest, password, now)
  {
    hide Le16, Word, ZeroFrom, Times, Padded;
    hdr := new char[HEADER_LEN](_ => NUL);
    AllZero(hdr[..]);
    PutTimes(hdr, orig, dest, now);
    ghost var t := hdr[..20];
    PutWord(hdr, 20, Word(orig.net));
    PutWord(hdr, 22, Word(dest.net));
    ZeroTail(hdr[..], 24, 26);
    assert hdr[..26] == hdr[..][..26] && hdr[..24] == hdr[..][..24];
    PutField(hdr, 26, 8, password);
    PutWord(hdr, 34, Word(orig.zone));
    PutWord(hdr, 36, Word(dest.zone));
    ZeroTail(hdr[..], 38, 58);
    assert hdr[..38] == hdr[..][..38] && hdr[..] == hdr[..][..58];
    HeaderParts(orig, dest, password, now);
  }

  lemma AllZero(s: string)
    requires forall i :: 0 <= i < |s| ==> s[i] == NUL
    ensures ZeroFrom(s, 0)
  {
    assert s[0..] == Zeros(|s|);
  }

  lemma HeaderParts(orig: Addr, dest: Addr, password: string, now: Clock)
    ensures Header(orig, dest, password, now) ==
      Times(orig, dest, now) + Le16(Word(orig.net)) + Le16(Word(dest.net)) + Zeros(2) + Padded(password, 8)
      + Le16(Word(orig.zone)) + Le16(Word(dest.zone)) + Zeros(20)
  {
    hide Le16, Word, Times, Padded, Zeros;
  }

  /** The fixed words of a message, filled in place. */
  method WritePrefix(m: Message) returns (buf: array<char>)
    ensures fresh(buf) && buf[..] == Prefix(m)
  {
    hide Le16, Word, ZeroFrom;
    buf := new char[PREFIX_LEN](_ => NUL);
    AllZero(buf[..]);
    PutWord(buf, 0, 2);
    assert buf[..2] == Le16(2);
    PutWord(buf, 2, Word(m.orig.node));
    PutWord(buf, 4, Word(m.dest.node));
    PutWord(buf, 6, Word(m.orig.net));
    PutWord(buf, 8, Word(m.dest.net));
    PutWord(buf, 10, m.attrib);
    PutWord(buf, 12, m.cost);
    assert buf[..] == buf[..14];
  }

  method WriteMessage(m: Message, now: Clock) returns (w: string)
    ensures w == MessageText(m, now)
  {
    hide Prefix, ZeroFrom, Padded, Texts, Ended;
    var prefix := WritePrefix(m);
    var dateStr := m.dateTime;
    if dateStr == "" {
      dateStr := now.text;
    }
    var dateBuf := new char[DATE_LEN](_ => NUL);
    AllZero(dateBuf[..]);
    PutField(dateBuf, 0, DATE_LEN, dateStr);
    assert dateBuf[..] == dateBuf[..DATE_LEN] == Padded(dateStr, DATE_LEN) by {
      assert "" + Padded(dateStr, DATE_LEN) == Padded(dateStr, DATE_LEN);
    }
    var texts := WriteTexts([m.toName, m.fromName, m.subject, m.body]);
    FourTexts(m);
    w := prefix[..] + (dateBuf[..] + texts);
  }

  method WriteTexts(strings: seq<string>) returns (texts: string)
    ensures texts == Ended(strings)
  {
    hide Ended;
    EndedNone();
    texts := "";
    for i := 0 to |strings|
      invariant texts == Ended(strings[..i])
    {
      EndedSnoc(strings[..i], strings[i]);
      assert strings[..i] + [strings[i]] == strings[..i + 1];
      texts := texts + (strings[i] + [NUL]);
    }
    assert strings[..|strings|] == strings;
  }

  /** Texts that end in NUL. */
  function Ended(texts: seq<string>): string {
    if texts == [] then "" else Ended(texts[..|texts| - 1]) + (texts[|texts| - 1] + [NUL])
  }

  lemma EndedSnoc(texts: seq<string>, t: string)
    ensures Ended(texts + [t]) == Ended(texts) + (t + [NUL])
  {
    assert (texts + [t])[..|texts|] == texts;
  }

  lemma FourTexts(m: Message)
    ensures Ended([m.toName, m.fromName, m.subject, m.body]) == Texts(m)
  {
    hide Ended;
    EndedNone();
    EndedSnoc([], m.toName);
    EndedSnoc([m.toName], m.fromName);
    EndedSnoc([m.toName, m.fromName], m.subject);
    EndedSnoc([m.toName, m.fromName, m.subject], m.body);
    assert [] + [m.toName] == [m.toName];
    assert [m.toName] + [m.fromName] == [m.toName, m.fromName];
    assert [m.toName, m.fromName] + [m.subject] == [m.toName, m.fromName, m.subject];
    assert [m.toName, m.fromName, m.subject] + [m.body] == [m.toName, m.fromName, m.subject, m.body];
    assert Texts(m) == "" + (m.toName + [NUL]) + (m.fromName + [NUL]) + (m.subject + [NUL]) + (m.body + [NUL]);
  }

  lemma EndedNone()
    ensures Ended([]) == ""
  {
  }

  /** `WritePacket` */
  method WritePacket(orig: Addr, dest: Addr, password: string, msgs: seq<Message>, now: Clock) returns (w: string)
    ensures w == Written(orig, dest, password, msgs, now)
  {
    hide Header, MessageText, MessageTexts;
    var hdr := WriteHeader(orig, dest, password, now);
    ghost var h := hdr[..];
    w := hdr[..];
    assert msgs[0..] == msgs;
    for i := 0 to |msgs|
      invariant w + MessageTexts(msgs[i..], now) == h + MessageTexts(msgs, now)
    {
      var text := WriteMessage(msgs[i], now);
      MoreTexts(msgs[i..], now);
      assert msgs[i..][1..] == msgs[i + 1..];
      assert w + (text + MessageTexts(msgs[i + 1..], now)) == w + text + MessageTexts(msgs[i + 1..], now);
      w := w + text;
    }
    NoTexts(now);
    assert msgs[|msgs|..] == [] && w + "" == w;
    assert h + MessageTexts(msgs, now) + [NUL, NUL] == h + (MessageTexts(msgs, now) + [NUL, NUL]);
    w := w + [NUL, NUL];
  }

  lemma MoreTexts(msgs: seq<Message>, now: Clock)
    requires msgs != []
    ensures MessageTexts(msgs, now) == MessageText(msgs[0], now) + MessageTexts(msgs[1..], now)
  {
    hide MessageText;
  }

  lemma NoTexts(now: Clock)
    ensures MessageTexts([], now) == ""
  {
  }
}
