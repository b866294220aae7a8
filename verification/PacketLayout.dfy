/** The octets of a Type-2 packet at their places (FTS-0001, Packet Header and Packed Message). */
module PacketLayout {
  import opened Octets
  import opened Packet

  lemma TimeSlices(orig: Addr, dest: Addr, now: Clock)
    ensures var s := Times(orig, dest, now);
      && s[0..2] == Le16(Word(orig.node)) && s[2..4] == Le16(Word(dest.node)) && s[4..6] == Le16(Word(now.year))
      && s[6..8] == Le16(Word(now.month - 1)) && s[8..10] == Le16(Word(now.day)) && s[10..12] == Le16(Word(now.hour))
      && s[12..14] == Le16(Word(now.minute)) && s[14..16] == Le16(Word(now.second)) && s[16..18] == Le16(0) && s[18..20] == Le16(2)
  {
    hide Le16, Word;
  }

  /** Nodes, the time with the month counted from 0, no baud rate, and type 2. */
  lemma TimesLayout(orig: Addr, dest: Addr, now: Clock)
    ensures var s := Times(orig, dest, now);
      && HasWord(s, 0, orig.node) && HasWord(s, 2, dest.node)
      && HasWord(s, 4, now.year) && HasWord(s, 6, now.month - 1) && HasWord(s, 8, now.day)
      && HasWord(s, 10, now.hour) && HasWord(s, 12, now.minute) && HasWord(s, 14, now.second)
      && HasWord(s, 16, 0) && HasWord(s, 18, 2)
  {
    hide Le16, Times, HasWord;
    var s := Times(orig, dest, now);
    TimeSlices(orig, dest, now);
    WordOctets(s, 0, orig.node);
    WordOctets(s, 2, dest.node);
    WordOctets(s, 4, now.year);
    WordOctets(s, 6, now.month - 1);
    WordOctets(s, 8, now.day);
    WordOctets(s, 10, now.hour);
    WordOctets(s, 12, now.minute);
    WordOctets(s, 14, now.second);
    WordOctets(s, 16, 0);
    WordOctets(s, 18, 2);
  }

  lemma KeepsWord(a: string, b: string, i: nat, n: int)
    requires HasWord(a, i, n)
    ensures HasWord(a + b, i, n)
  {
    assert (a + b)[i] == a[i] && (a + b)[i + 1] == a[i + 1];
  }

  lemma NetSlices(orig: Addr, dest: Addr, password: string, now: Clock)
    ensures var s := Header(orig, dest, password, now);
      && s[20..22] == Le16(Word(orig.net)) && s[22..24] == Le16(Word(dest.net)) && s[24..26] == Zeros(2)
      && s[26..34] == Padded(password, 8) && s[34..36] == Le16(Word(orig.zone)) && s[36..38] == Le16(Word(dest.zone))
      && s[38..58] == Zeros(20)
  {
    hide Le16, Word, Zeros, Padded, Times;
  }

  /** The header of any packet, octet by octet. */
  lemma HeaderLayout(orig: Addr, dest: Addr, password: string, msgs: seq<Message>, now: Clock)
    ensures var s := Written(orig, dest, password, msgs, now);
      && |s| >= 60 && s[|s| - 2..] == [NUL, NUL]
      && HasWord(s, 0, orig.node) && HasWord(s, 2, dest.node)
      && HasWord(s, 4, now.year) && HasWord(s, 6, now.month - 1) && HasWord(s, 8, now.day)
      && HasWord(s, 10, now.hour) && HasWord(s, 12, now.minute) && HasWord(s, 14, now.second)
      && HasWord(s, 16, 0) && HasWord(s, 18, 2)
      && HasWord(s, 20, orig.net) && HasWord(s, 22, dest.net) && HasWord(s, 34, orig.zone) && HasWord(s, 36, dest.zone)
      && (forall i :: 26 <= i < 34 ==> s[i] == if i - 26 < |password| then password[i - 26] else NUL)
      && (forall i :: (24 <= i < 26 || 38 <= i < 58) ==> s[i] == NUL)
  {
    hide Times, HasWord, MessageTexts, Le16;
    var t, h, s := Times(orig, dest, now), Header(orig, dest, password, now), Written(orig, dest, password, msgs, now);
    TimesLayout(orig, dest, now);
    NetSlices(orig, dest, password, now);
    var rest := h[20..];
    assert h == t + rest;
    var more := MessageTexts(msgs, now) + [NUL, NUL];
    assert s == h + more;
    forall i, n | HasWord(t, i, n) ensures HasWord(s, i, n) {
      KeepsWord(t, rest, i, n);
      KeepsWord(h, more, i, n);
    }
    WordOctets(h, 20, orig.net);
    WordOctets(h, 22, dest.net);
    WordOctets(h, 34, orig.zone);
    WordOctets(h, 36, dest.zone);
    KeepsWord(h, more, 20, orig.net);
    KeepsWord(h, more, 22, dest.net);
    KeepsWord(h, more, 34, orig.zone);
    KeepsWord(h, more, 36, dest.zone);
    forall i | 26 <= i < 34 ensures s[i] == if i - 26 < |password| then password[i - 26] else NUL {
      assert s[i] == h[26..34][i - 26];
    }
    forall i | 24 <= i < 26 || 38 <= i < 58 ensures s[i] == NUL {
      assert i < 26 ==> s[i] == h[24..26][i - 24];
      assert i >= 38 ==> s[i] == h[38..58][i - 38];
    }
  }

  lemma PrefixSlicesAt(m: Message)
    ensures var s := Prefix(m);
      && s[0..2] == Le16(Word(2)) && s[2..4] == Le16(Word(m.orig.node)) && s[4..6] == Le16(Word(m.dest.node))
      && s[6..8] == Le16(Word(m.orig.net)) && s[8..10] == Le16(Word(m.dest.net))
      && s[10..12] == Le16(Word(m.attrib)) && s[12..14] == Le16(Word(m.cost))
  {
    hide Le16;
    assert Word(2) == 2 && Word(m.attrib) == m.attrib && Word(m.cost) == m.cost;
  }

  /** A packed message: type, nodes, nets, attribute, cost, a date field of 20 octets, and the four texts, each with
      a NUL behind it, in the order to, from, subject and body. */
  lemma MessageLayout(m: Message, now: Clock)
    ensures var s := MessageText(m, now);
      && |s| >= 34
      && HasWord(s, 0, 2) && HasWord(s, 2, m.orig.node) && HasWord(s, 4, m.dest.node)
      && HasWord(s, 6, m.orig.net) && HasWord(s, 8, m.dest.net) && HasWord(s, 10, m.attrib) && HasWord(s, 12, m.cost)
      && s[34..] == m.toName + [NUL] + (m.fromName + [NUL] + (m.subject + [NUL] + (m.body + [NUL])))
      && var date := if m.dateTime == "" then now.text else m.dateTime;
         forall i :: 14 <= i < 34 ==> s[i] == if i - 14 < |date| then date[i - 14] else NUL
  {
    hide HasWord, Le16;
    var p, s := Prefix(m), MessageText(m, now);
    PrefixSlicesAt(m);
    WordOctets(p, 0, 2);
    WordOctets(p, 2, m.orig.node);
    WordOctets(p, 4, m.dest.node);
    WordOctets(p, 6, m.orig.net);
    WordOctets(p, 8, m.dest.net);
    WordOctets(p, 10, m.attrib);
    WordOctets(p, 12, m.cost);
    var rest := s[14..];
    assert s == p + rest;
    forall i, n | HasWord(p, i, n) ensures HasWord(s, i, n) {
      KeepsWord(p, rest, i, n);
    }
    forall i | 14 <= i < 34 ensures s[i] == (var date := DateText(m, now); if i - 14 < |date| then date[i - 14] else NUL) {
      assert s[i] == Padded(DateText(m, now), 20)[i - 14];
    }
  }
}
