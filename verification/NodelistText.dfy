/** Nodelist lines as text (FTS-0005): what is written for an entry, and what is read from a line's fields. */
module NodelistText {
  import opened Text
  import opened Nodelist

  /** A text field of a line: spaces become underscores, and an empty text a hyphen. */
  lemma FieldWritten(s: string)
    ensures s == "" ==> NlEncode(s) == "-"
    ensures FieldText(s) ==> |NlEncode(s)| == |s| && forall i :: 0 <= i < |s| ==> NlEncode(s)[i] == if s[i] == ' ' then '_' else s[i]
  {
    hide TrimSpace;
    TrimSpaceKeeps(s);
  }

  /** A field that was read: underscores become spaces. */
  lemma FieldRead(s: string)
    requires s != "" && !IsSpace(s[0]) && !IsSpace(s[|s| - 1])
    ensures |NlDecode(s)| == |s| && forall i :: 0 <= i < |s| ==> NlDecode(s)[i] == if s[i] == '_' then ' ' else s[i]
  {
    hide TrimSpace;
    TrimSpaceKeeps(s);
  }

  lemma JoinSix(a: string, b: string, c: string, d: string, e: string, f: string)
    ensures Join([a, b, c, d, e, f], ',') == a + "," + b + "," + c + "," + d + "," + e + "," + f
  {
    hide Join;
    JoinFront(e, [f]);
    JoinFront(d, [e, f]);
    JoinFront(c, [d, e, f]);
    JoinFront(b, [c, d, e, f]);
    JoinFront(a, [b, c, d, e, f]);
    JoinLast(f);
    assert [e] + [f] == [e, f] && [d] + [e, f] == [d, e, f] && [c] + [d, e, f] == [c, d, e, f];
    assert [b] + [c, d, e, f] == [b, c, d, e, f] && [a] + [b, c, d, e, f] == [a, b, c, d, e, f];
    Commas(a, b, c, d, e, f);
  }

  lemma Commas(a: string, b: string, c: string, d: string, e: string, f: string)
    ensures a + [','] + (b + [','] + (c + [','] + (d + [','] + (e + [','] + f)))) == a + "," + b + "," + c + "," + d + "," + e + "," + f
  {
  }

  lemma JoinFront(a: string, parts: seq<string>)
    requires parts != []
    ensures Join([a] + parts, ',') == a + [','] + Join(parts, ',')
  {
    assert ([a] + parts)[1..] == parts;
  }

  lemma JoinLast(a: string)
    ensures Join([a], ',') == a
  {
  }

  /** The line of an entry whose kind is one of the list's: its keyword, none for a plain node; its number, which is
      the zone, the net or the node; name, location, sysop, phone, baud rate and flags. */
  lemma LineText(e: Entry)
    requires e.kind in {"Zone", "Region", "Host", "Hub", "Pvt", "Hold", "Down", "Boss", "Node"}
    requires e.phone != "" && e.baud != 0
    ensures var keyword := if e.kind == "Node" then "" else e.kind;
      var number := if e.kind == "Zone" then e.zone else if e.kind == "Region" || e.kind == "Host" then e.net else e.node;
      Line(e) == keyword + "," + (DecimalInt(number) + ","
        + (NlEncode(e.name) + "," + NlEncode(e.location) + "," + NlEncode(e.sysop) + "," + e.phone + "," + DecimalInt(e.baud) + "," + e.flags))
  {
    hide Join, DecimalInt, NlEncode, KindOf;
    Keywords(e);
    JoinSix(NlEncode(e.name), NlEncode(e.location), NlEncode(e.sysop), e.phone, DecimalInt(e.baud), e.flags);
  }

  lemma Keywords(e: Entry)
    requires e.kind in {"Zone", "Region", "Host", "Hub", "Pvt", "Hold", "Down", "Boss", "Node"}
    ensures Word(LineKind(e)) == (if e.kind == "Node" then "" else e.kind)
    ensures LineNumber(e) == (if e.kind == "Zone" then e.zone else if e.kind == "Region" || e.kind == "Host" then e.net else e.node)
  {
    hide KindOf, LineNumber;
    KindWords(e.kind);
    assert e.kind == Title(LineKind(e));
    NumberOfKind(e);
  }

  lemma KindWords(kind: string)
    requires kind in {"Zone", "Region", "Host", "Hub", "Pvt", "Hold", "Down", "Boss", "Node"}
    ensures kind == "Node" ==> KindOf(kind) == Unknown
    ensures kind != "Node" ==> !KindOf(kind).Unknown? && Word(KindOf(kind)) == kind
    ensures kind == "Zone" ==> KindOf(kind) == Zone
    ensures kind == "Region" ==> KindOf(kind) == Region
    ensures kind == "Host" ==> KindOf(kind) == Host
  {
    hide TrimSpace, Lower, KindOf;
    WordIsKind(Zone);
    WordIsKind(Region);
    WordIsKind(Host);
    WordIsKind(Hub);
    WordIsKind(Pvt);
    WordIsKind(Hold);
    WordIsKind(Down);
    WordIsKind(Boss);
    NodeIsUnknown();
  }

  lemma NodeIsUnknown()
    ensures KindOf("Node") == Unknown
  {
    hide TrimSpace, Lower;
    TrimSpaceKeeps("Node");
    assert Lower("Node")[0] == 'n';
  }

  /** A text that a field can carry. */
  predicate Clean(t: string) {
    FieldText(t) && ',' !in t
  }

  /** A line is read field by field, in the same order; a plain node's keyword is empty. The number of a zone is also
      its net, and the number of a region or host becomes the net for the lines after it. */
  lemma LineRead(keyword: string, num: Int64, name: string, location: string, sysop: string, phone: string, baud: Int64,
                 flags: string, zone: Int64, net: Int64)
    requires keyword in {"Zone", "Region", "Host", "Hub", "Pvt", "Hold", "Down", "Boss", ""}
    requires Clean(name) && Clean(location) && Clean(sysop) && Clean(phone) && baud != 0
    ensures var line := keyword + "," + (DecimalInt(num) + ","
        + (NlEncode(name) + "," + NlEncode(location) + "," + NlEncode(sysop) + "," + phone + "," + DecimalInt(baud) + "," + flags));
      var z := if keyword == "Zone" then num else zone;
      var n := if keyword == "Zone" || keyword == "Region" || keyword == "Host" then num else net;
      var node := if keyword == "Zone" || keyword == "Region" || keyword == "Host" then 0 else num;
      var kind := if keyword == "" then "Node" else keyword;
      ParsedLine(line, zone, net) == Some(Parsed(
        Entry(z, n, node, 0, name, location, sysop, phone, baud, flags, kind, keyword != "Hold" && keyword != "Down"), z, n))
  {
    hide Line, Join, DecimalInt, NlEncode, NlDecode, KindOf, TrimSpace, ParsedLine, AtoiValue, LineNumber, FieldText;
    var z := if keyword == "Zone" then num else zone;
    var n := if keyword == "Zone" || keyword == "Region" || keyword == "Host" then num else net;
    var node := if keyword == "Zone" || keyword == "Region" || keyword == "Host" then 0 else num;
    var kind := if keyword == "" then "Node" else keyword;
    var e := Entry(z, n, node, 0, name, location, sysop, phone, baud, flags, kind, keyword != "Hold" && keyword != "Down");
    CleanPhone(phone);
    KindWords(kind);
    LineText(e);
    StateAfter(e, zone, net);
  }

  lemma CleanPhone(phone: string)
    requires FieldText(phone)
    ensures phone != "" && !IsSpace(phone[0]) && !IsSpace(phone[|phone| - 1])
  {
  }
}
