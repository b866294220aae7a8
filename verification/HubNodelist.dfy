/** The nodelist a hub generates from its members, net by net, and when its own reader gets it back. */
module HubNodelist {
  import opened Text
  import opened Nodelist

  datatype Member = Member(id: Int64, zone: Int64, net: Int64, nodeNum: Int64, point: Int64, bbsName: string,
                           sysopName: string, location: string, binkpHost: string, isHost: bool, isActive: bool)

  /** The hub: its zone and net, and the names that its own lines carry. */
  datatype HubInfo = HubInfo(zone: Int64, net: Int64, bbsName: string, sysopName: string)

  // ---------------------------------------------------------------- entries

  /** `memberIBNFlags` */
  function IbnFlags(m: Member): string {
    if m.binkpHost == "" then "" else ",IBN:" + m.binkpHost
  }

  /** `memberAsHostEntry` */
  function AsHost(m: Member): Entry {
    Entry(m.zone, m.net, 0, 0, m.bbsName, m.location, m.sysopName, UNPUBLISHED, DEFAULT_BAUD, IbnFlags(m), "Host", m.isActive)
  }

  /** `memberAsNodeEntry` */
  function AsNode(m: Member): Entry {
    Entry(m.zone, m.net, m.nodeNum, m.point, m.bbsName, m.location, m.sysopName, UNPUBLISHED, DEFAULT_BAUD, IbnFlags(m), "Node", m.isActive)
  }

  function ZoneLine(h: HubInfo): Entry {
    Entry(h.zone, h.zone, 0, 0, h.bbsName, "Internet", h.sysopName, UNPUBLISHED, DEFAULT_BAUD, "CM", "Zone", true)
  }

  /** The hub's own line for its net when no member is its host. */
  function OwnHost(h: HubInfo): Entry {
    Entry(h.zone, h.net, 0, 0, h.bbsName, "Internet", h.sysopName, UNPUBLISHED, DEFAULT_BAUD, "", "Host", true)
  }

  /** One group of `groupByNet`. */
  function OfNet(members: seq<Member>, net: Int64): (r: seq<Member>)
    ensures forall m :: m in r <==> m in members && m.net == net
  {
    if members == [] then []
    else OfNet(members[..|members| - 1], net) + (if members[|members| - 1].net == net then [members[|members| - 1]] else [])
  }

  /** `findHost` */
  function FindHost(ms: seq<Member>): (r: Option<Member>)
    ensures r.Some? ==> r.value in ms && r.value.isHost
    ensures r.None? ==> forall m :: m in ms ==> !m.isHost
  {
    if ms == [] then None else if ms[0].isHost then Some(ms[0]) else FindHost(ms[1..])
  }

  /** The members listed as nodes after the lines of the host. */
  function Others(ms: seq<Member>, host: Option<Member>): (r: seq<Member>)
    ensures forall m :: m in r <==> m in ms && !(host.Some? && m.id == host.value.id)
  {
    if ms == [] then []
    else
      var m := ms[|ms| - 1];
      Others(ms[..|ms| - 1], host) + (if host.Some? && m.id == host.value.id then [] else [m])
  }

  function AsNodes(ms: seq<Member>): (r: seq<Entry>)
    ensures |r| == |ms| && forall i :: 0 <= i < |r| ==> r[i] == AsNode(ms[i])
  {
    seq(|ms|, i requires 0 <= i < |ms| => AsNode(ms[i]))
  }

  /** The line that announces a net, if there is one. */
  function Lead(h: HubInfo, host: Option<Member>, net: Int64): seq<Entry> {
    if host.Some? then [AsHost(host.value)] else if net == h.net then [OwnHost(h)] else []
  }

  /** The nodes of a net: the host again, when it has a number of its own, and the others. */
  function Nodes(ms: seq<Member>, host: Option<Member>): seq<Entry> {
    (if host.Some? && host.value.nodeNum != 0 then [AsNode(host.value)] else []) + AsNodes(Others(ms, host))
  }

  function NetEntries(h: HubInfo, members: seq<Member>, net: Int64): seq<Entry> {
    var ms := OfNet(members, net);
    Lead(h, FindHost(ms), net) + Nodes(ms, FindHost(ms))
  }

  function NetsEntries(h: HubInfo, members: seq<Member>, nets: seq<Int64>): seq<Entry> {
    if nets == [] then [] else NetEntries(h, members, nets[0]) + NetsEntries(h, members, nets[1..])
  }

  /** `hubNodelistEntries`, for the nets of the members in ascending order. */
  function HubEntries(h: HubInfo, members: seq<Member>, nets: seq<Int64>): seq<Entry> {
    [ZoneLine(h)] + NetsEntries(h, members, nets)
  }

  predicate Ascending(nets: seq<Int64>) {
    forall i, j :: 0 <= i < j < |nets| ==> nets[i] < nets[j]
  }

  /** `sortedNets(groupByNet(members))`: every net of a member, once, in order. */
  predicate NetsOf(nets: seq<Int64>, members: seq<Member>) {
    Ascending(nets) && (forall n :: n in nets ==> HasMember(members, n)) && (forall m :: m in members ==> m.net in nets)
  }

  predicate HasMember(members: seq<Member>, net: Int64) {
    exists m :: m in members && m.net == net
  }

  /** Row numbers are keys of the member table. */
  predicate KeyedById(members: seq<Member>) {
    forall m, m' :: m in members && m' in members && m.id == m'.id ==> m == m'
  }

  // ---------------------------------------------------------------- placement

  function NetAfterAll(es: seq<Entry>, net: Int64): Int64
    decreases |es|
  {
    if es == [] then net else NetAfterAll(es[1..], NetAfter(es[0], net))
  }

  function ZoneAfterAll(es: seq<Entry>, zone: Int64): Int64
    decreases |es|
  {
    if es == [] then zone else ZoneAfterAll(es[1..], ZoneAfter(es[0], zone))
  }

  lemma {:induction false} PlacedAppend(a: seq<Entry>, b: seq<Entry>, zone: Int64, net: Int64)
    ensures AllPlaced(a + b, zone, net) <==> AllPlaced(a, zone, net) && AllPlaced(b, ZoneAfterAll(a, zone), NetAfterAll(a, net))
    decreases |a|
  {
    hide Placed, ZoneAfter, NetAfter;
    if a == [] {
      assert a + b == b;
    } else {
      assert (a + b)[1..] == a[1..] + b;
      PlacedAppend(a[1..], b, ZoneAfter(a[0], zone), NetAfter(a[0], net));
    }
  }

  lemma KindOfLines(e: Entry)
    ensures e.kind == "Node" ==> LineKind(e) == Node
    ensures e.kind == "Host" ==> LineKind(e) == Host
    ensures e.kind == "Zone" ==> LineKind(e) == Zone
  {
    hide KindOf;
    WordIsKind(Host);
    WordIsKind(Zone);
    NodeIsNoKeyword();
  }

  lemma NodeIsNoKeyword()
    ensures KindOf("Node") == Unknown
  {
    hide TrimSpace, Lower;
    TrimSpaceKeeps("Node");
    var l := Lower("Node");
    assert l[0] == 'n';
  }

  predicate AllNodes(es: seq<Entry>) {
    forall i :: 0 <= i < |es| ==> es[i].kind == "Node"
  }

  predicate InZone(es: seq<Entry>, zone: Int64) {
    forall i :: 0 <= i < |es| ==> es[i].zone == zone
  }

  predicate InNet(es: seq<Entry>, net: Int64) {
    forall i :: 0 <= i < |es| ==> es[i].net == net
  }

  /** Node lines do not change the state. */
  lemma {:induction false} NodesPlaced(es: seq<Entry>, zone: Int64, net: Int64)
    requires AllNodes(es)
    ensures AllPlaced(es, zone, net) <==> InZone(es, zone) && InNet(es, net)
    ensures ZoneAfterAll(es, zone) == zone && NetAfterAll(es, net) == net
    decreases |es|
  {
    hide LineKind;
    if es != [] {
      KindOfLines(es[0]);
      assert forall i :: 0 <= i < |es[1..]| ==> es[1..][i] == es[i + 1];
      NodesPlaced(es[1..], zone, net);
      if InZone(es[1..], zone) && InNet(es[1..], net) && es[0].zone == zone && es[0].net == net {
        forall i | 0 <= i < |es| ensures es[i].zone == zone && es[i].net == net {
          assert i > 0 ==> es[i] == es[1..][i - 1];
        }
      }
    }
  }

  /** A host line sets the net for the nodes after it. */
  lemma HostAndNodesPlaced(host: Entry, nodes: seq<Entry>, zone: Int64, net: Int64)
    requires host.kind == "Host" && host.node == 0 && AllNodes(nodes)
    ensures AllPlaced([host] + nodes, zone, net) <==> host.zone == zone && InZone(nodes, zone) && InNet(nodes, host.net)
    ensures ZoneAfterAll([host] + nodes, zone) == zone && NetAfterAll([host] + nodes, net) == host.net
  {
    hide LineKind;
    KindOfLines(host);
    assert ([host] + nodes)[1..] == nodes;
    NodesPlaced(nodes, zone, host.net);
  }

  /** A net with a line of its own. */
  predicate HasHostLine(h: HubInfo, members: seq<Member>, net: Int64) {
    FindHost(OfNet(members, net)).Some? || net == h.net
  }

  /** A member's lines fit the zone: its own zone is the hub's. */
  predicate ZonesFit(h: HubInfo, ms: seq<Member>) {
    forall m :: m in ms ==> m.zone == h.zone
  }

  lemma NodesShape(ms: seq<Member>, host: Option<Member>, net: Int64)
    requires host == FindHost(ms) && forall m :: m in ms ==> m.net == net
    ensures AllNodes(Nodes(ms, host)) && InNet(Nodes(ms, host), net)
    ensures host.None? && ms != [] ==> Nodes(ms, host) != []
  {
    hide FindHost, Others;
    var others := Others(ms, host);
    forall i | 0 <= i < |others| ensures others[i].net == net {
      assert others[i] in others;
    }
    if host.None? && ms != [] {
      assert ms[0] in others;
    }
  }

  lemma NodesZone(ms: seq<Member>, zone: Int64)
    ensures InZone(AsNodes(ms), zone) <==> forall m :: m in ms ==> m.zone == zone
  {
    var es := AsNodes(ms);
    if InZone(es, zone) {
      forall m | m in ms ensures m.zone == zone {
        var i :| 0 <= i < |ms| && ms[i] == m;
        assert es[i].zone == zone;
      }
    }
  }

  lemma InZoneAppend(a: seq<Entry>, b: seq<Entry>, zone: Int64)
    ensures InZone(a + b, zone) <==> InZone(a, zone) && InZone(b, zone)
  {
    if InZone(a + b, zone) {
      forall i | 0 <= i < |a| ensures a[i].zone == zone {
        assert (a + b)[i] == a[i];
      }
      forall i | 0 <= i < |b| ensures b[i].zone == zone {
        assert (a + b)[|a| + i] == b[i];
      }
    }
  }

  lemma SameId(members: seq<Member>, m: Member, m': Member)
    requires KeyedById(members) && m in members && m' in members && m.id == m'.id
    ensures m == m'
  {
  }

  lemma NodesInZone(members: seq<Member>, ms: seq<Member>, host: Option<Member>, zone: Int64)
    requires host == FindHost(ms) && KeyedById(members) && forall m :: m in ms ==> m in members
    ensures (forall m :: m in ms ==> m.zone == zone) <==> InZone(Nodes(ms, host), zone) && (host.Some? ==> host.value.zone == zone)
  {
    hide FindHost, Others, KeyedById, AsNodes;
    var others := Others(ms, host);
    NodesZone(others, zone);
    var own := if host.Some? && host.value.nodeNum != 0 then [AsNode(host.value)] else [];
    InZoneAppend(own, AsNodes(others), zone);
    if InZone(AsNodes(others), zone) && (host.Some? ==> host.value.zone == zone) {
      forall m | m in ms ensures m.zone == zone {
        if host.Some? && m.id == host.value.id {
          SameId(members, m, host.value);
        } else {
          assert m in others;
        }
      }
    }
  }

  /** The lines of one net: placed when its members are in the zone, and the net has a line of its own or is
      the one that was current before it. */
  lemma NetPlaced(h: HubInfo, members: seq<Member>, net: Int64, current: Int64)
    requires KeyedById(members) && OfNet(members, net) != []
    ensures AllPlaced(NetEntries(h, members, net), h.zone, current)
       <==> ZonesFit(h, OfNet(members, net)) && (HasHostLine(h, members, net) || net == current)
    ensures ZoneAfterAll(NetEntries(h, members, net), h.zone) == h.zone
    ensures NetAfterAll(NetEntries(h, members, net), current) == if HasHostLine(h, members, net) then net else current
  {
    hide FindHost, OfNet, Nodes, AllPlaced, ZoneAfterAll, NetAfterAll, KeyedById, InZone;
    var ms := OfNet(members, net);
    var host := FindHost(ms);
    var nodes := Nodes(ms, host);
    NodesShape(ms, host, net);
    NodesInZone(members, ms, host, h.zone);
    if HasHostLine(h, members, net) {
      var lead := if host.Some? then AsHost(host.value) else OwnHost(h);
      HostAndNodesPlaced(lead, nodes, h.zone, current);
    } else {
      assert [] + nodes == nodes;
      NodesPlaced(nodes, h.zone, current);
      assert nodes[0].net == net;
    }
  }

  lemma OwnNetHasMembers(members: seq<Member>, net: Int64)
    requires HasMember(members, net)
    ensures OfNet(members, net) != []
  {
    var m :| m in members && m.net == net;
    assert m in OfNet(members, net);
  }

  predicate AllZonesFit(h: HubInfo, members: seq<Member>, nets: seq<Int64>) {
    forall i :: 0 <= i < |nets| ==> ZonesFit(h, OfNet(members, nets[i]))
  }

  predicate AllHaveHostLines(h: HubInfo, members: seq<Member>, nets: seq<Int64>) {
    forall i :: 0 <= i < |nets| ==> HasHostLine(h, members, nets[i])
  }

  predicate Peopled(members: seq<Member>, nets: seq<Int64>) {
    Ascending(nets) && forall i :: 0 <= i < |nets| ==> HasMember(members, nets[i])
  }

  lemma PeopledTail(members: seq<Member>, nets: seq<Int64>)
    requires nets != [] && Peopled(members, nets)
    ensures Peopled(members, nets[1..]) && nets[0] !in nets[1..]
  {
    hide HasMember;
    assert forall i :: 0 <= i < |nets[1..]| ==> nets[1..][i] == nets[i + 1];
  }

  lemma FirstOfAll(h: HubInfo, members: seq<Member>, nets: seq<Int64>)
    requires nets != []
    ensures AllZonesFit(h, members, nets) <==> ZonesFit(h, OfNet(members, nets[0])) && AllZonesFit(h, members, nets[1..])
    ensures AllHaveHostLines(h, members, nets) <==> HasHostLine(h, members, nets[0]) && AllHaveHostLines(h, members, nets[1..])
  {
    hide ZonesFit, HasHostLine, OfNet;
    assert forall i :: 0 <= i < |nets[1..]| ==> nets[1..][i] == nets[i + 1];
    forall i | 1 <= i < |nets| ensures nets[i] == nets[1..][i - 1] {
    }
  }

  /** After a net that is none of these, every one of them needs a line of its own. */
  lemma {:induction false} NetsPlacedAfter(h: HubInfo, members: seq<Member>, nets: seq<Int64>, current: Int64)
    requires KeyedById(members) && Peopled(members, nets) && current !in nets
    ensures AllPlaced(NetsEntries(h, members, nets), h.zone, current)
       <==> AllZonesFit(h, members, nets) && AllHaveHostLines(h, members, nets)
    decreases |nets|
  {
    hide KeyedById, OfNet, NetEntries, AllPlaced, ZoneAfterAll, NetAfterAll, ZonesFit, HasHostLine, HasMember, AllZonesFit, AllHaveHostLines;
    if nets == [] {
      NoNets(h, members, current);
    } else {
      var first, rest := NetEntries(h, members, nets[0]), NetsEntries(h, members, nets[1..]);
      PeopledTail(members, nets);
      OwnNetHasMembers(members, nets[0]);
      NetPlaced(h, members, nets[0], current);
      PlacedAppend(first, rest, h.zone, current);
      FirstOfAll(h, members, nets);
      if HasHostLine(h, members, nets[0]) {
        NetsPlacedAfter(h, members, nets[1..], nets[0]);
      }
    }
  }

  lemma NoNets(h: HubInfo, members: seq<Member>, current: Int64)
    ensures AllPlaced([], h.zone, current) && AllZonesFit(h, members, []) && AllHaveHostLines(h, members, [])
  {
  }

  /** Every net announced, except that the first one may be the zone's own number, which the zone line leaves current. */
  predicate NetsAnnounced(h: HubInfo, members: seq<Member>, nets: seq<Int64>) {
    forall i :: 0 <= i < |nets| ==> HasHostLine(h, members, nets[i]) || (i == 0 && nets[0] == h.zone)
  }

  lemma AnnouncedIff(h: HubInfo, members: seq<Member>, nets: seq<Int64>)
    requires nets != []
    ensures NetsAnnounced(h, members, nets)
       <==> (HasHostLine(h, members, nets[0]) || nets[0] == h.zone) && AllHaveHostLines(h, members, nets[1..])
  {
    hide HasHostLine;
    if NetsAnnounced(h, members, nets) {
      forall i | 0 <= i < |nets[1..]| ensures HasHostLine(h, members, nets[1..][i]) {
        assert nets[1..][i] == nets[i + 1];
      }
    }
    if (HasHostLine(h, members, nets[0]) || nets[0] == h.zone) && AllHaveHostLines(h, members, nets[1..]) {
      forall i | 0 <= i < |nets| ensures HasHostLine(h, members, nets[i]) || (i == 0 && nets[0] == h.zone) {
        assert i > 0 ==> nets[i] == nets[1..][i - 1];
      }
    }
  }

  /** Where the reader's running zone and net lead, for the whole generated list. */
  lemma HubPlaced(h: HubInfo, members: seq<Member>, nets: seq<Int64>)
    requires KeyedById(members) && Peopled(members, nets)
    ensures AllPlaced(HubEntries(h, members, nets), 0, 0)
       <==> AllZonesFit(h, members, nets) && NetsAnnounced(h, members, nets)
  {
    hide KeyedById, OfNet, NetEntries, ZoneAfterAll, NetAfterAll, ZonesFit, HasHostLine, HasMember, AllZonesFit, AllHaveHostLines, NetsAnnounced, LineKind;
    var z := ZoneLine(h);
    KindOfLines(z);
    assert HubEntries(h, members, nets)[1..] == NetsEntries(h, members, nets);
    if nets == [] {
      NoNets(h, members, h.zone);
      NothingAnnounced(h, members);
    } else {
      var first, rest := NetEntries(h, members, nets[0]), NetsEntries(h, members, nets[1..]);
      PeopledTail(members, nets);
      OwnNetHasMembers(members, nets[0]);
      NetPlaced(h, members, nets[0], h.zone);
      PlacedAppend(first, rest, h.zone, h.zone);
      FirstOfAll(h, members, nets);
      AnnouncedIff(h, members, nets);
      NetsPlacedAfter(h, members, nets[1..], nets[0]);
    }
  }

  lemma NothingAnnounced(h: HubInfo, members: seq<Member>)
    ensures NetsAnnounced(h, members, [])
  {
  }

  // ---------------------------------------------------------------- fields

  predicate Listed(text: string) {
    FieldText(text) && ',' !in text
  }

  predicate HubListed(h: HubInfo) {
    Listed(h.bbsName) && Listed(h.sysopName)
  }

  predicate MemberListed(m: Member) {
    Listed(m.bbsName) && Listed(m.location) && Listed(m.sysopName) && m.isActive
  }

  /** A point has no line of its own form; only a host that is listed just as Host loses nothing by it. */
  predicate Listable(m: Member, host: Option<Member>) {
    MemberListed(m) && (m.point == 0 || (host == Some(m) && m.nodeNum == 0))
  }

  lemma HostEncodable(m: Member)
    ensures Encodable(AsHost(m)) <==> MemberListed(m)
  {
    hide FieldText, LineKind;
    KindOfLines(AsHost(m));
  }

  lemma NodeEncodable(m: Member)
    ensures Encodable(AsNode(m)) <==> MemberListed(m) && m.point == 0
  {
    hide FieldText, LineKind;
    KindOfLines(AsNode(m));
  }

  lemma HubLinesEncodable(h: HubInfo)
    ensures Encodable(ZoneLine(h)) <==> HubListed(h)
    ensures Encodable(OwnHost(h)) <==> HubListed(h)
  {
    hide LineKind;
    KindOfLines(ZoneLine(h));
    KindOfLines(OwnHost(h));
  }

  lemma EncodableAppend(a: seq<Entry>, b: seq<Entry>)
    ensures AllEncodable(a + b) <==> AllEncodable(a) && AllEncodable(b)
  {
    hide Encodable;
    if AllEncodable(a + b) {
      forall i | 0 <= i < |a| ensures Encodable(a[i]) {
        assert (a + b)[i] == a[i];
      }
      forall i | 0 <= i < |b| ensures Encodable(b[i]) {
        assert (a + b)[|a| + i] == b[i];
      }
    }
  }

  lemma NodesEncodable(ms: seq<Member>)
    ensures AllEncodable(AsNodes(ms)) <==> forall m :: m in ms ==> MemberListed(m) && m.point == 0
  {
    hide Encodable, MemberListed;
    var es := AsNodes(ms);
    if AllEncodable(es) {
      forall m | m in ms ensures MemberListed(m) && m.point == 0 {
        var i :| 0 <= i < |ms| && ms[i] == m;
        assert Encodable(es[i]);
        NodeEncodable(m);
      }
    }
    if forall m :: m in ms ==> MemberListed(m) && m.point == 0 {
      forall i | 0 <= i < |es| ensures Encodable(es[i]) {
        assert ms[i] in ms;
        NodeEncodable(ms[i]);
      }
    }
  }

  lemma OneEncodable(e: Entry)
    ensures AllEncodable([e]) <==> Encodable(e)
    ensures AllEncodable([])
  {
    hide Encodable;
    assert [e][0] == e;
  }

  predicate NetListable(ms: seq<Member>, host: Option<Member>) {
    forall m :: m in ms ==> Listable(m, host)
  }

  /** The lines of one net can carry their entries exactly when its members can be listed. */
  lemma NetEncodable(h: HubInfo, members: seq<Member>, net: Int64)
    requires KeyedById(members) && HubListed(h)
    ensures var ms := OfNet(members, net); AllEncodable(NetEntries(h, members, net)) <==> NetListable(ms, FindHost(ms))
  {
    hide FindHost, OfNet, Others, AsNodes, KeyedById, Encodable, MemberListed, HubListed, AllEncodable;
    var ms := OfNet(members, net);
    var host := FindHost(ms);
    var others := Others(ms, host);
    EncodableAppend(Lead(h, host, net), Nodes(ms, host));
    NodesEncodable(others);
    OneEncodable(OwnHost(h));
    HubLinesEncodable(h);
    if host.Some? {
      var own := if host.value.nodeNum != 0 then [AsNode(host.value)] else [];
      EncodableAppend(own, AsNodes(others));
      OneEncodable(AsHost(host.value));
      OneEncodable(AsNode(host.value));
      HostEncodable(host.value);
      NodeEncodable(host.value);
      forall m | m in ms ensures m in others || m == host.value {
        if m.id == host.value.id {
          SameId(members, m, host.value);
        }
      }
      assert host.value !in others;
    } else {
      EncodableAppend([], AsNodes(others));
    }
  }

  predicate AllNetsListable(members: seq<Member>, nets: seq<Int64>) {
    forall i :: 0 <= i < |nets| ==> NetListable(OfNet(members, nets[i]), FindHost(OfNet(members, nets[i])))
  }

  lemma {:induction false} NetsEncodable(h: HubInfo, members: seq<Member>, nets: seq<Int64>)
    requires KeyedById(members) && HubListed(h)
    ensures AllEncodable(NetsEntries(h, members, nets)) <==> AllNetsListable(members, nets)
    decreases |nets|
  {
    hide KeyedById, HubListed, NetEntries, OfNet, FindHost, NetListable, AllEncodable;
    OneEncodable(ZoneLine(h));
    if nets != [] {
      NetEncodable(h, members, nets[0]);
      NetsEncodable(h, members, nets[1..]);
      EncodableAppend(NetEntries(h, members, nets[0]), NetsEntries(h, members, nets[1..]));
      assert forall i :: 0 <= i < |nets[1..]| ==> nets[1..][i] == nets[i + 1];
      forall i | 1 <= i < |nets| ensures nets[i] == nets[1..][i - 1] {
      }
    }
  }

  // ---------------------------------------------------------------- the whole list

  /** What the hub's reader gets back, in terms of the hub and its members. */
  predicate ReadsBack(h: HubInfo, members: seq<Member>, nets: seq<Int64>) {
    && HubListed(h)
    && (forall m :: m in members ==> m.zone == h.zone && Listable(m, FindHost(OfNet(members, m.net))))
    && NetsAnnounced(h, members, nets)
  }

  lemma ByMember(h: HubInfo, members: seq<Member>, nets: seq<Int64>)
    requires NetsOf(nets, members)
    ensures AllZonesFit(h, members, nets) && AllNetsListable(members, nets)
       <==> forall m :: m in members ==> m.zone == h.zone && Listable(m, FindHost(OfNet(members, m.net)))
  {
    hide FindHost, Listable, HasMember;
    if AllZonesFit(h, members, nets) && AllNetsListable(members, nets) {
      forall m | m in members ensures m.zone == h.zone && Listable(m, FindHost(OfNet(members, m.net))) {
        var i :| 0 <= i < |nets| && nets[i] == m.net;
        assert m in OfNet(members, nets[i]);
        assert NetListable(OfNet(members, nets[i]), FindHost(OfNet(members, nets[i])));
      }
    }
  }

  /** Reading the generated list line by line returns its entries in order exactly when the hub's and the
      members' texts can be listed, every member is active, in the hub's zone and no point (a host listed
      under no number but 0 apart), and every net has a host or is the hub's own (the zone's number apart,
      when it comes first). */
  lemma HubRoundTrip(h: HubInfo, members: seq<Member>, nets: seq<Int64>)
    requires KeyedById(members) && NetsOf(nets, members)
    ensures var es := HubEntries(h, members, nets);
      ReadLines(LinesOf(es), 0, 0) == es <==> ReadsBack(h, members, nets)
  {
    hide KeyedById, AllPlaced, AllEncodable, HubListed, NetsAnnounced, ReadLines, LinesOf, AllZonesFit, AllNetsListable, OfNet, FindHost, Listable,
      HasMember, NetsEntries, Encodable;
    var es := HubEntries(h, members, nets);
    ListRoundTrip(es, 0, 0);
    assert Peopled(members, nets);
    HubPlaced(h, members, nets);
    EncodableAppend([ZoneLine(h)], NetsEntries(h, members, nets));
    OneEncodable(ZoneLine(h));
    HubLinesEncodable(h);
    if HubListed(h) {
      NetsEncodable(h, members, nets);
    }
    ByMember(h, members, nets);
  }

  // ---------------------------------------------------------------- as loops

  lemma OfNetSnoc(members: seq<Member>, m: Member, net: Int64)
    ensures OfNet(members + [m], net) == OfNet(members, net) + (if m.net == net then [m] else [])
  {
    assert (members + [m])[..|members|] == members;
  }

  /** `groupByNet` */
  method GroupByNet(members: seq<Member>) returns (byNet: map<Int64, seq<Member>>)
    ensures forall n :: n in byNet <==> OfNet(members, n) != []
    ensures forall n :: n in byNet ==> byNet[n] == OfNet(members, n)
  {
    hide OfNet;
    byNet := map[];
    NobodyIn();
    for i := 0 to |members|
      invariant forall n :: n in byNet <==> OfNet(members[..i], n) != []
      invariant forall n :: n in byNet ==> byNet[n] == OfNet(members[..i], n)
    {
      var m := members[i];
      forall n: Int64 ensures OfNet(members[..i + 1], n) == OfNet(members[..i], n) + (if m.net == n then [m] else []) {
        OfNetSnoc(members[..i], m, n);
        assert members[..i] + [m] == members[..i + 1];
      }
      byNet := byNet[m.net := (if m.net in byNet then byNet[m.net] else []) + [m]];
    }
    assert members[..|members|] == members;
  }

  lemma NobodyIn()
    ensures forall n :: OfNet([], n) == []
  {
  }

  /** Inserts a net in its place. */
  method InsertNet(nets: seq<Int64>, n: Int64) returns (r: seq<Int64>)
    requires Ascending(nets) && n !in nets
    ensures Ascending(r) && forall x :: x in r <==> x in nets || x == n
  {
    var i := 0;
    while i < |nets| && nets[i] < n
      invariant i <= |nets| && forall j :: 0 <= j < i ==> nets[j] < n
    {
      i := i + 1;
    }
    r := nets[..i] + [n] + nets[i..];
    assert nets == nets[..i] + nets[i..];
    InsertedAscending(nets[..i], n, nets[i..]);
  }

  lemma InsertedAscending(a: seq<Int64>, n: Int64, b: seq<Int64>)
    requires Ascending(a + b) && n !in a + b
    requires (forall j :: 0 <= j < |a| ==> a[j] < n) && (b != [] ==> n <= b[0])
    ensures Ascending(a + [n] + b) && forall x :: x in a + [n] + b <==> x in a + b || x == n
  {
    var s, r := a + b, a + [n] + b;
    forall j | 0 <= j < |b| ensures n < b[j] {
      assert s[|a|] == b[0] && s[|a| + j] == b[j];
      assert b[j] in s;
      assert j > 0 ==> s[|a|] < s[|a| + j];
    }
    forall i, j | 0 <= i < j < |r| ensures r[i] < r[j] {
      var i', j' := if i > |a| then i - 1 else i, if j > |a| then j - 1 else j;
      assert i != |a| ==> r[i] == s[i'];
      assert j != |a| ==> r[j] == s[j'];
    }
  }

  /** `sortedNets` */
  method SortedNets(byNet: map<Int64, seq<Member>>) returns (nets: seq<Int64>)
    ensures Ascending(nets) && forall n :: n in nets <==> n in byNet
  {
    nets := [];
    var keys := byNet.Keys;
    while keys != {}
      invariant keys <= byNet.Keys && Ascending(nets)
      invariant forall n :: n in nets <==> n in byNet && n !in keys
      decreases |keys|
    {
      var n :| n in keys;
      keys := keys - {n};
      nets := InsertNet(nets, n);
    }
  }

  lemma NetsFromGroups(members: seq<Member>, nets: seq<Int64>)
    requires Ascending(nets) && forall n :: n in nets <==> OfNet(members, n) != []
    ensures NetsOf(nets, members)
  {
    hide OfNet;
    forall n | n in nets ensures HasMember(members, n) {
      var m := OfNet(members, n)[0];
      assert m in OfNet(members, n);
    }
    forall m | m in members ensures m.net in nets {
      assert m in OfNet(members, m.net);
    }
  }

  method FindHostMember(ms: seq<Member>) returns (host: Option<Member>)
    ensures host == FindHost(ms)
  {
    for i := 0 to |ms|
      invariant FindHost(ms) == FindHost(ms[i..])
    {
      assert ms[i..][0] == ms[i] && ms[i..][1..] == ms[i + 1..];
      if ms[i].isHost {
        return Some(ms[i]);
      }
    }
    host := None;
  }

  /** The lines of one net. */
  method ListNet(h: HubInfo, netMembers: seq<Member>, net: Int64) returns (out: seq<Entry>)
    ensures out == Lead(h, FindHost(netMembers), net) + Nodes(netMembers, FindHost(netMembers))
  {
    hide FindHost, Others, AsNodes;
    var host := FindHostMember(netMembers);
    out := [];
    if host.Some? {
      out := out + [AsHost(host.value)];
      if host.value.nodeNum != 0 {
        out := out + [AsNode(host.value)];
      }
    } else if net == h.net {
      out := out + [OwnHost(h)];
    }
    var nodes := ListOthers(netMembers, host);
    out := out + nodes;
  }

  /** The members after the lines of the host. */
  method ListOthers(ms: seq<Member>, host: Option<Member>) returns (out: seq<Entry>)
    ensures out == AsNodes(Others(ms, host))
  {
    hide Others, AsNodes;
    out := [];
    NoOthers(host);
    for i := 0 to |ms|
      invariant out == AsNodes(Others(ms[..i], host))
    {
      OthersSnoc(ms[..i], ms[i], host);
      assert ms[..i] + [ms[i]] == ms[..i + 1];
      if host.Some? && ms[i].id == host.value.id {
        continue;
      }
      AsNodesSnoc(Others(ms[..i], host), ms[i]);
      out := out + [AsNode(ms[i])];
    }
    assert ms[..|ms|] == ms;
  }

  lemma AsNodesSnoc(ms: seq<Member>, m: Member)
    ensures AsNodes(ms + [m]) == AsNodes(ms) + [AsNode(m)]
  {
  }

  lemma OthersSnoc(ms: seq<Member>, m: Member, host: Option<Member>)
    ensures Others(ms + [m], host) == Others(ms, host) + (if host.Some? && m.id == host.value.id then [] else [m])
  {
    assert (ms + [m])[..|ms|] == ms;
  }

  lemma NoOthers(host: Option<Member>)
    ensures Others([], host) == []
  {
  }

  /** `hubNodelistEntries` */
  method HubNodelistEntries(h: HubInfo, members: seq<Member>) returns (out: seq<Entry>)
    ensures exists nets :: NetsOf(nets, members) && out == HubEntries(h, members, nets)
  {
    hide OfNet, FindHost, NetEntries, NetsEntries;
    out := [ZoneLine(h)];
    var byNet := GroupByNet(members);
    var sorted := SortedNets(byNet);
    NetsFromGroups(members, sorted);
    assert sorted[0..] == sorted;
    for i := 0 to |sorted|
      invariant out + NetsEntries(h, members, sorted[i..]) == HubEntries(h, members, sorted)
    {
      assert sorted[i] in sorted;
      var lines := ListNet(h, byNet[sorted[i]], sorted[i]);
      NetsStep(h, members, sorted[i..]);
      NetLines(h, members, sorted[i]);
      assert sorted[i..][1..] == sorted[i + 1..];
      assert out + (lines + NetsEntries(h, members, sorted[i + 1..])) == out + lines + NetsEntries(h, members, sorted[i + 1..]);
      out := out + lines;
    }
    NetsNone(h, members);
    assert sorted[|sorted|..] == [] && out + [] == out;
  }

  lemma NetLines(h: HubInfo, members: seq<Member>, net: Int64)
    ensures NetEntries(h, members, net) ==
      Lead(h, FindHost(OfNet(members, net)), net) + Nodes(OfNet(members, net), FindHost(OfNet(members, net)))
  {
    hide OfNet, FindHost;
  }

  lemma NetsStep(h: HubInfo, members: seq<Member>, nets: seq<Int64>)
    requires nets != []
    ensures NetsEntries(h, members, nets) == NetEntries(h, members, nets[0]) + NetsEntries(h, members, nets[1..])
  {
    hide NetEntries;
  }

  lemma NetsNone(h: HubInfo, members: seq<Member>)
    ensures NetsEntries(h, members, []) == []
  {
  }
}
