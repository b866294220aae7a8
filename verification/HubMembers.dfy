/** What the generated hub nodelist says about each member, field by field, after its own reader has read it. */
module HubMembers {
  import opened Text
  import opened Nodelist
  import opened HubNodelist

  /** The zone's coordinator line, in the hub's name. */
  predicate SaysZone(e: Entry, h: HubInfo) {
    && e.kind == "Zone" && e.zone == h.zone && e.net == h.zone && e.node == 0 && e.point == 0
    && e.name == h.bbsName && e.location == "Internet" && e.sysop == h.sysopName
    && e.phone == "-Unpublished-" && e.baud == 33600 && e.flags == "CM" && e.active
  }

  /** The hub's own line for its net. */
  predicate SaysOwnNet(e: Entry, h: HubInfo) {
    && e.kind == "Host" && e.zone == h.zone && e.net == h.net && e.node == 0 && e.point == 0
    && e.name == h.bbsName && e.location == "Internet" && e.sysop == h.sysopName
    && e.phone == "-Unpublished-" && e.baud == 33600 && e.flags == "" && e.active
  }

  /** The texts of a member's line. */
  predicate SaysMember(e: Entry, m: Member) {
    && e.zone == m.zone && e.net == m.net
    && e.name == m.bbsName && e.location == m.location && e.sysop == m.sysopName
    && e.phone == "-Unpublished-" && e.baud == 33600 && e.active == m.isActive
    && e.flags == if m.binkpHost == "" then "" else ",IBN:" + m.binkpHost
  }

  predicate SaysNode(e: Entry, m: Member) {
    SaysMember(e, m) && e.kind == "Node" && e.node == m.nodeNum && e.point == m.point
  }

  predicate SaysHost(e: Entry, m: Member) {
    SaysMember(e, m) && e.kind == "Host" && e.node == 0 && e.point == 0
  }

  /** The member is a host, and the first one of its net. */
  predicate IsNetHost(members: seq<Member>, m: Member) {
    exists i :: 0 <= i < |members| && members[i] == m && m.isHost
      && forall j :: 0 <= j < i ==> !(members[j].isHost && members[j].net == m.net)
  }

  // ---------------------------------------------------------------- hosts

  lemma {:induction false} FindHostSnoc(ms: seq<Member>, x: Member)
    ensures FindHost(ms + [x]) == if FindHost(ms).Some? then FindHost(ms) else if x.isHost then Some(x) else None
  {
    if ms == [] {
      assert ms + [x] == [x] && [x][1..] == [];
    } else {
      assert (ms + [x])[1..] == ms[1..] + [x];
      FindHostSnoc(ms[1..], x);
    }
  }

  lemma NobodyInNet(net: Int64)
    ensures OfNet([], net) == [] && FindHost([]) == None
  {
  }

  /** The host that the generator finds is the first one of its net. */
  lemma {:induction false} FoundIsFirst(members: seq<Member>, net: Int64)
    ensures var f := FindHost(OfNet(members, net));
      && (f.Some? ==> f.value.net == net && IsNetHost(members, f.value))
      && (f.None? ==> forall j :: 0 <= j < |members| ==> !(members[j].isHost && members[j].net == net))
    decreases |members|
  {
    hide OfNet, FindHost;
    if members == [] {
      NobodyInNet(net);
    } else {
      var front, x := members[..|members| - 1], members[|members| - 1];
      assert members == front + [x];
      FoundIsFirst(front, net);
      OfNetSnoc(front, x, net);
      FindHostSnoc(OfNet(front, net), x);
      assert OfNet(front, net) + [] == OfNet(front, net);
      var f := FindHost(OfNet(front, net));
      if f.Some? {
        StaysFirst(front, x, f.value);
      } else if x.isHost && x.net == net {
        assert members[|members| - 1] == x;
      }
    }
  }

  lemma StaysFirst(front: seq<Member>, x: Member, m: Member)
    requires IsNetHost(front, m)
    ensures IsNetHost(front + [x], m)
  {
    var i :| 0 <= i < |front| && front[i] == m && m.isHost
      && forall j :: 0 <= j < i ==> !(front[j].isHost && front[j].net == m.net);
    assert (front + [x])[i] == m;
  }

  lemma FirstIsFound(members: seq<Member>, m: Member)
    requires IsNetHost(members, m)
    ensures FindHost(OfNet(members, m.net)) == Some(m)
  {
    hide OfNet, FindHost;
    FoundIsFirst(members, m.net);
    var i :| 0 <= i < |members| && members[i] == m && m.isHost
      && forall j :: 0 <= j < i ==> !(members[j].isHost && members[j].net == m.net);
    var f := FindHost(OfNet(members, m.net));
    var k :| 0 <= k < |members| && members[k] == f.value && f.value.isHost
      && forall j :: 0 <= j < k ==> !(members[j].isHost && members[j].net == f.value.net);
    assert i == k;
  }

  // ---------------------------------------------------------------- one net

  /** A member of a net has a node line in it, unless it is its host without a number. */
  lemma NodeListed(h: HubInfo, members: seq<Member>, m: Member) returns (e: Entry)
    requires KeyedById(members) && m in members && !(IsNetHost(members, m) && m.nodeNum == 0)
    ensures e in NetEntries(h, members, m.net) && SaysNode(e, m)
  {
    hide OfNet, FindHost, Others, KeyedById, IsNetHost;
    var ms := OfNet(members, m.net);
    var host := FindHost(ms);
    e := AsNode(m);
    if host == Some(m) {
      FoundIsFirst(members, m.net);
      assert [AsNode(m)][0] == e;
      assert e in Nodes(ms, host);
    } else {
      if host.Some? && m.id == host.value.id {
        SameId(members, m, host.value);
      }
      var others := Others(ms, host);
      assert m in others;
      var i :| 0 <= i < |others| && others[i] == m;
      assert AsNodes(others)[i] == e;
      assert e in Nodes(ms, host);
    }
  }

  /** The host of a net has a host line in it. */
  lemma HostListed(h: HubInfo, members: seq<Member>, m: Member) returns (e: Entry)
    requires IsNetHost(members, m)
    ensures e in NetEntries(h, members, m.net) && SaysHost(e, m)
  {
    hide OfNet, FindHost, Nodes, IsNetHost;
    FirstIsFound(members, m);
    e := AsHost(m);
    assert [AsHost(m)][0] == e;
  }

  /** Every line of a net is the hub's own, or says what it says of a member. */
  predicate FromSomebody(e: Entry, h: HubInfo, members: seq<Member>) {
    SaysOwnNet(e, h) || exists m :: m in members && (SaysNode(e, m) || (SaysHost(e, m) && IsNetHost(members, m)))
  }

  lemma LineOfNet(h: HubInfo, members: seq<Member>, net: Int64, e: Entry)
    requires e in NetEntries(h, members, net)
    ensures FromSomebody(e, h, members) && e.net == net
  {
    hide OfNet, FindHost, Others, IsNetHost;
    var ms := OfNet(members, net);
    var host := FindHost(ms);
    FoundIsFirst(members, net);
    if e in Lead(h, host, net) {
      if host.Some? {
        assert e == AsHost(host.value) && host.value in members;
        assert SaysHost(e, host.value);
      } else {
        assert SaysOwnNet(e, h);
      }
    } else {
      var others := Others(ms, host);
      if e in AsNodes(others) {
        var i :| 0 <= i < |others| && e == AsNodes(others)[i];
        assert others[i] in others && others[i] in ms && others[i] in members;
        assert SaysNode(e, others[i]);
      } else {
        assert e == AsNode(host.value) && host.value in members;
        assert SaysNode(e, host.value);
      }
    }
  }

  // ---------------------------------------------------------------- all nets

  lemma {:induction false} NetIsIn(h: HubInfo, members: seq<Member>, nets: seq<Int64>, net: Int64, e: Entry)
    requires net in nets && e in NetEntries(h, members, net)
    ensures e in NetsEntries(h, members, nets)
    decreases |nets|
  {
    hide NetEntries;
    if net != nets[0] {
      assert net in nets[1..];
      NetIsIn(h, members, nets[1..], net, e);
    }
  }

  lemma {:induction false} LineOfNets(h: HubInfo, members: seq<Member>, nets: seq<Int64>, e: Entry)
    requires e in NetsEntries(h, members, nets)
    ensures FromSomebody(e, h, members) && e.net in nets
    decreases |nets|
  {
    hide NetEntries, FromSomebody;
    if e in NetEntries(h, members, nets[0]) {
      LineOfNet(h, members, nets[0], e);
    } else {
      LineOfNets(h, members, nets[1..], e);
      assert e.net in nets[1..];
    }
  }

  predicate ByNet(es: seq<Entry>) {
    forall i, j :: 0 <= i < j < |es| ==> es[i].net <= es[j].net
  }

  lemma {:induction false} NetsInOrder(h: HubInfo, members: seq<Member>, nets: seq<Int64>)
    requires Ascending(nets)
    ensures ByNet(NetsEntries(h, members, nets))
    decreases |nets|
  {
    hide NetEntries, FromSomebody;
    if nets != [] {
      NetsInOrder(h, members, nets[1..]);
      var a, b := NetEntries(h, members, nets[0]), NetsEntries(h, members, nets[1..]);
      forall i | 0 <= i < |a| ensures a[i].net == nets[0] {
        LineOfNet(h, members, nets[0], a[i]);
      }
      forall i | 0 <= i < |b| ensures b[i].net >= nets[0] {
        LineOfNets(h, members, nets[1..], b[i]);
        var k :| 0 <= k < |nets[1..]| && nets[1..][k] == b[i].net;
        assert nets[k + 1] == b[i].net;
      }
    }
  }

  // ---------------------------------------------------------------- the list that is read

  /** What a list says about a hub and its members: first the zone, then net by net, every member with its own name,
      place, sysop and flags, and nothing else. */
  predicate Tells(out: seq<Entry>, h: HubInfo, members: seq<Member>) {
    && out != [] && SaysZone(out[0], h) && ByNet(out[1..])
    && (forall m :: m in members && !(IsNetHost(members, m) && m.nodeNum == 0) ==> exists e :: e in out[1..] && SaysNode(e, m))
    && (forall m :: m in members && IsNetHost(members, m) ==> exists e :: e in out[1..] && SaysHost(e, m))
    && (forall e :: e in out[1..] ==> FromSomebody(e, h, members))
  }

  lemma EntriesTell(h: HubInfo, members: seq<Member>, nets: seq<Int64>)
    requires KeyedById(members) && NetsOf(nets, members)
    ensures Tells(HubEntries(h, members, nets), h, members)
  {
    hide KeyedById, NetEntries, NetsEntries, IsNetHost, SaysNode, SaysHost, FromSomebody, HasMember, ByNet;
    var out := HubEntries(h, members, nets);
    var rest := NetsEntries(h, members, nets);
    assert out[1..] == rest;
    NetsInOrder(h, members, nets);
    forall m | m in members && !(IsNetHost(members, m) && m.nodeNum == 0) ensures exists e :: e in rest && SaysNode(e, m) {
      var e := NodeListed(h, members, m);
      NetIsIn(h, members, nets, m.net, e);
    }
    forall m | m in members && IsNetHost(members, m) ensures exists e :: e in rest && SaysHost(e, m) {
      var e := HostListed(h, members, m);
      NetIsIn(h, members, nets, m.net, e);
    }
    forall e | e in rest ensures FromSomebody(e, h, members) {
      LineOfNets(h, members, nets, e);
    }
  }

  /** Reading the generated lines tells all this about the members that the list can carry. */
  lemma ReadingTells(h: HubInfo, members: seq<Member>, nets: seq<Int64>)
    requires KeyedById(members) && NetsOf(nets, members) && ReadsBack(h, members, nets)
    ensures Tells(ReadLines(LinesOf(HubEntries(h, members, nets)), 0, 0), h, members)
  {
    hide KeyedById, NetsOf, ReadsBack, Tells, ReadLines, LinesOf, HubEntries;
    HubRoundTrip(h, members, nets);
    EntriesTell(h, members, nets);
  }
}
