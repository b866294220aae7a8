/** Session statistics. Every event is added to four rows of its network, one each for the day, the month,
    the year and all time, and polls also to rows of the link they went over. */
module StatsStore {

  /** The columns of the network and link tables that events add to. */
  datatype Counter =
    | ClientOK | ClientFail | ClientSent | ClientRecv
    | UplinkOK | UplinkFail | UplinkSent | UplinkRecv
    | DownlinkOK | DownlinkFail | DownlinkSent | DownlinkRecv
    | NetmailRecv | EchomailRecv | NetmailSent | EchomailSent
    | TossImported | TossSkipped | TossDuplicate | TossHoldFailed | TossInsertFailed | TossHeld | TossPackets
    | SessionErrors
    | LinkOK | LinkFail | LinkSent | LinkRecv

  /** A row's counters; one that is absent is 0. */
  type Counts = map<Counter, int>

  function At(c: Counts, k: Counter): int {
    if k in c then c[k] else 0
  }

  function Plus(a: Counts, b: Counts): (r: Counts)
    ensures forall k :: At(r, k) == At(a, k) + At(b, k)
  {
    map k | k in a.Keys + b.Keys :: At(a, k) + At(b, k)
  }

  datatype Date = Date(year: int, month: int, day: int)

  datatype Period = Day(date: Date) | Month(year: int, month: int) | Year(year: int) | All

  datatype Level = Daily | Monthly | Yearly | Ever

  /** `periodKeys`: the row of each level that a date falls into. */
  function PeriodOf(level: Level, at: Date): Period {
    match level
    case Daily => Day(at)
    case Monthly => Month(at.year, at.month)
    case Yearly => Year(at.year)
    case Ever => All
  }

  function LevelOf(p: Period): Level {
    match p
    case Day(_) => Daily
    case Month(_, _) => Monthly
    case Year(_) => Yearly
    case All => Ever
  }

  datatype NetKey = NetKey(network: string, period: Period)

  datatype LinkKey = LinkKey(network: string, period: Period, linkType: string, peer: string)

  datatype Store = Store(nets: map<NetKey, Counts>, links: map<LinkKey, Counts>)

  function Get<K>(table: map<K, Counts>, k: K): Counts {
    if k in table then table[k] else map[]
  }

  function NetRow(s: Store, network: string, p: Period): Counts {
    Get(s.nets, NetKey(network, p))
  }

  function LinkRow(s: Store, network: string, p: Period, linkType: string, peer: string): Counts {
    Get(s.links, LinkKey(network, p, linkType, peer))
  }

  // ---------------------------------------------------------------- events

  datatype TossResult = TossResult(netmail: int, echomail: int, imported: int, skipped: int, duplicate: int,
                                   holdFailed: int, insertFailed: int, orphaned: int, packets: int)

  datatype Event =
    | ClientPoll(network: string, at: Date, peer: string, ok: bool, sent: int, recv: int)
    | ServerSession(network: string, at: Date, linkType: string, peer: string, ok: bool, sent: int, recv: int)
    | SessionError(network: string, at: Date)
    | Toss(network: string, at: Date, outcome: TossResult)
    | Scan(network: string, at: Date, scanned: int)
    | NetmailQueued(network: string, at: Date, peer: string, count: int)

  const UPLINK: string := "uplink"
  const DOWNLINK: string := "downlink"

  function Poll(ok: bool, sent: int, recv: int, okCounter: Counter, failCounter: Counter, sentCounter: Counter, recvCounter: Counter): Counts
    requires okCounter != failCounter
  {
    map[sentCounter := sent, recvCounter := recv, okCounter := if ok then 1 else 0, failCounter := if ok then 0 else 1]
  }

  /** The event does anything at all. */
  predicate Counted(e: Event) {
    (e.Scan? ==> e.scanned > 0) && (e.NetmailQueued? ==> e.count > 0)
  }

  /** What the event adds to its network's rows. */
  function NetDelta(e: Event): Counts {
    match e
    case ClientPoll(_, _, _, ok, sent, recv) => Poll(ok, sent, recv, ClientOK, ClientFail, ClientSent, ClientRecv)
    case ServerSession(_, _, linkType, _, ok, sent, recv) =>
      if linkType == UPLINK then Poll(ok, sent, recv, UplinkOK, UplinkFail, UplinkSent, UplinkRecv)
      else if linkType == DOWNLINK then Poll(ok, sent, recv, DownlinkOK, DownlinkFail, DownlinkSent, DownlinkRecv)
      else map[]
    case SessionError(_, _) => map[SessionErrors := 1]
    case Toss(_, _, t) =>
      map[NetmailRecv := t.netmail, EchomailRecv := t.echomail, TossImported := t.imported, TossSkipped := t.skipped,
          TossDuplicate := t.duplicate, TossHoldFailed := t.holdFailed, TossInsertFailed := t.insertFailed,
          TossHeld := t.orphaned, TossPackets := t.packets]
    case Scan(_, _, scanned) => map[EchomailSent := scanned]
    case NetmailQueued(_, _, _, count) => map[NetmailSent := count]
  }

  /** The kind of link the event went over, or nothing. */
  function LinkTypeOf(e: Event): string {
    match e
    case ClientPoll(_, _, _, _, _, _) => UPLINK
    case ServerSession(_, _, linkType, _, _, _, _) => linkType
    case NetmailQueued(_, _, _, _) => UPLINK
    case _ => ""
  }

  function PeerOf(e: Event): string {
    match e
    case ClientPoll(_, _, peer, _, _, _) => peer
    case ServerSession(_, _, _, peer, _, _, _) => peer
    case NetmailQueued(_, _, peer, _) => peer
    case _ => ""
  }

  /** What it adds to the rows of that link. */
  function LinkDelta(e: Event): Counts {
    match e
    case ClientPoll(_, _, _, ok, sent, recv) => Poll(ok, sent, recv, LinkOK, LinkFail, LinkSent, LinkRecv)
    case ServerSession(_, _, _, _, ok, sent, recv) => Poll(ok, sent, recv, LinkOK, LinkFail, LinkSent, LinkRecv)
    case NetmailQueued(_, _, _, count) => map[NetmailSent := count]
    case _ => map[]
  }

  // ---------------------------------------------------------------- the tables

  /** `INSERT ... ON CONFLICT ... DO UPDATE`: the counters are added to the row, which is made if it is missing. */
  function Added<K>(table: map<K, Counts>, k: K, d: Counts): map<K, Counts> {
    table[k := Plus(Get(table, k), d)]
  }

  function AddedToAll<K>(table: map<K, Counts>, keys: seq<K>, d: Counts): map<K, Counts> {
    if keys == [] then table else Added(AddedToAll(table, keys[..|keys| - 1], d), keys[|keys| - 1], d)
  }

  /** The periods of a date, in the order they are written. */
  function Periods(at: Date): seq<Period> {
    [PeriodOf(Daily, at), PeriodOf(Monthly, at), PeriodOf(Yearly, at), PeriodOf(Ever, at)]
  }

  function NetKeys(network: string, at: Date): (r: seq<NetKey>)
    ensures |r| == 4 && forall i :: 0 <= i < 4 ==> r[i] == NetKey(network, Periods(at)[i])
  {
    seq(4, i requires 0 <= i < 4 => NetKey(network, Periods(at)[i]))
  }

  function LinkKeys(network: string, linkType: string, peer: string, at: Date): (r: seq<LinkKey>)
    ensures |r| == 4 && forall i :: 0 <= i < 4 ==> r[i] == LinkKey(network, Periods(at)[i], linkType, peer)
  {
    seq(4, i requires 0 <= i < 4 => LinkKey(network, Periods(at)[i], linkType, peer))
  }

  predicate HasLink(e: Event) {
    LinkTypeOf(e) != "" && PeerOf(e) != ""
  }

  /** One recorded event. */
  function After(s: Store, e: Event): Store {
    if !Counted(e) || e.network == "" then s
    else
      Store(AddedToAll(s.nets, NetKeys(e.network, e.at), NetDelta(e)),
            if HasLink(e) then AddedToAll(s.links, LinkKeys(e.network, LinkTypeOf(e), PeerOf(e), e.at), LinkDelta(e)) else s.links)
  }

  function Empty(): Store {
    Store(map[], map[])
  }

  function AfterAll(events: seq<Event>): Store {
    if events == [] then Empty() else After(AfterAll(events[..|events| - 1]), events[|events| - 1])
  }

  predicate Distinct<K(==)>(keys: seq<K>) {
    forall i, j :: 0 <= i < j < |keys| ==> keys[i] != keys[j]
  }

  /** Writing rows with different keys adds the counters to each of them once, and to no other row. */
  lemma {:induction false} AddedAt<K>(table: map<K, Counts>, keys: seq<K>, d: Counts, k: K, c: Counter)
    requires Distinct(keys)
    ensures At(Get(AddedToAll(table, keys, d), k), c) == At(Get(table, k), c) + (if k in keys then At(d, c) else 0)
    decreases |keys|
  {
    if keys != [] {
      var front, last := keys[..|keys| - 1], keys[|keys| - 1];
      AddedAt(table, front, d, k, c);
      AddedAt(table, front, d, last, c);
      assert keys == front + [last];
      assert last !in front;
    }
  }

  lemma PeriodsOfDate(at: Date, p: Period)
    ensures p in Periods(at) <==> p == PeriodOf(LevelOf(p), at)
    ensures Distinct(Periods(at))
  {
  }

  /** An event is added to the rows of its network for the day, month and year of its date and for all time. */
  lemma NetRowAfter(s: Store, e: Event, network: string, p: Period, c: Counter)
    ensures At(NetRow(After(s, e), network, p), c)
         == At(NetRow(s, network, p), c) + (if Counted(e) && e.network != "" && e.network == network && p == PeriodOf(LevelOf(p), e.at)
                                               then At(NetDelta(e), c) else 0)
  {
    hide NetDelta, LinkDelta, LinkTypeOf, PeerOf, AddedToAll, Counted, PeriodOf;
    if Counted(e) && e.network != "" {
      PeriodsOfDate(e.at, p);
      var keys := NetKeys(e.network, e.at);
      AddedAt(s.nets, keys, NetDelta(e), NetKey(network, p), c);
      if network == e.network && p in Periods(e.at) {
        var i :| 0 <= i < 4 && Periods(e.at)[i] == p;
        assert keys[i] == NetKey(network, p);
      }
    }
  }

  /** And, when it went over a link, to that link's rows of the same periods. */
  lemma LinkRowAfter(s: Store, e: Event, network: string, p: Period, linkType: string, peer: string, c: Counter)
    ensures At(LinkRow(After(s, e), network, p, linkType, peer), c)
         == At(LinkRow(s, network, p, linkType, peer), c)
          + (if Counted(e) && e.network != "" && e.network == network && p == PeriodOf(LevelOf(p), e.at)
                && HasLink(e) && LinkTypeOf(e) == linkType && PeerOf(e) == peer then At(LinkDelta(e), c) else 0)
  {
    hide NetDelta, LinkDelta, LinkTypeOf, PeerOf, AddedToAll, Counted, PeriodOf;
    if Counted(e) && e.network != "" && HasLink(e) {
      PeriodsOfDate(e.at, p);
      var keys := LinkKeys(e.network, LinkTypeOf(e), PeerOf(e), e.at);
      AddedAt(s.links, keys, LinkDelta(e), LinkKey(network, p, linkType, peer), c);
      if network == e.network && p in Periods(e.at) && LinkTypeOf(e) == linkType && PeerOf(e) == peer {
        var i :| 0 <= i < 4 && Periods(e.at)[i] == p;
        assert keys[i] == LinkKey(network, p, linkType, peer);
      }
    }
  }

  // ---------------------------------------------------------------- roll-up

  /** The sum of a counter over some of a network's rows. */
  function SumNets(s: Store, network: string, ps: seq<Period>, c: Counter): int {
    if ps == [] then 0 else SumNets(s, network, ps[..|ps| - 1], c) + At(NetRow(s, network, ps[|ps| - 1]), c)
  }

  /** A list of all rows that a network has at one level. */
  predicate ListsRows(ps: seq<Period>, s: Store, network: string, level: Level) {
    && Distinct(ps)
    && (forall i :: 0 <= i < |ps| ==> LevelOf(ps[i]) == level)
    && (forall k :: k in s.nets && k.network == network && LevelOf(k.period) == level ==> k.period in ps)
  }

  predicate Touches(e: Event, network: string) {
    Counted(e) && e.network != "" && e.network == network
  }

  /** An event is added once to the rows of a level, if the list has the row of its date. */
  lemma {:induction false} SumNetsAfter(s: Store, e: Event, network: string, level: Level, ps: seq<Period>, c: Counter)
    requires Distinct(ps) && forall i :: 0 <= i < |ps| ==> LevelOf(ps[i]) == level
    ensures SumNets(After(s, e), network, ps, c)
         == SumNets(s, network, ps, c) + (if Touches(e, network) && PeriodOf(level, e.at) in ps then At(NetDelta(e), c) else 0)
    decreases |ps|
  {
    hide NetDelta, After, NetRow, PeriodOf, LevelOf, Counted;
    if ps != [] {
      var front, last := ps[..|ps| - 1], ps[|ps| - 1];
      SumNetsAfter(s, e, network, level, front, c);
      NetRowAfter(s, e, network, last, c);
      assert ps == front + [last];
      assert last !in front;
    }
  }

  lemma {:induction false} KeysStay<K>(table: map<K, Counts>, keys: seq<K>, d: Counts)
    ensures forall k :: k in AddedToAll(table, keys, d) <==> k in table || k in keys
    decreases |keys|
  {
    if keys != [] {
      KeysStay(table, keys[..|keys| - 1], d);
      assert keys == keys[..|keys| - 1] + [keys[|keys| - 1]];
    }
  }

  lemma RowsStay(s: Store, e: Event)
    ensures forall k :: k in s.nets ==> k in After(s, e).nets
    ensures forall k :: k in s.links ==> k in After(s, e).links
  {
    hide NetDelta, LinkDelta, AddedToAll, Counted, HasLink;
    if Counted(e) && e.network != "" {
      KeysStay(s.nets, NetKeys(e.network, e.at), NetDelta(e));
      if HasLink(e) {
        KeysStay(s.links, LinkKeys(e.network, LinkTypeOf(e), PeerOf(e), e.at), LinkDelta(e));
      }
    }
  }

  lemma NewRows(s: Store, e: Event, level: Level)
    requires Counted(e) && e.network != ""
    ensures NetKey(e.network, PeriodOf(level, e.at)) in After(s, e).nets
    ensures HasLink(e) ==> LinkKey(e.network, PeriodOf(level, e.at), LinkTypeOf(e), PeerOf(e)) in After(s, e).links
  {
    hide NetDelta, LinkDelta, AddedToAll, Counted, HasLink;
    KeysStay(s.nets, NetKeys(e.network, e.at), NetDelta(e));
    var i := match level case Daily => 0 case Monthly => 1 case Yearly => 2 case Ever => 3;
    assert NetKeys(e.network, e.at)[i] == NetKey(e.network, PeriodOf(level, e.at));
    if HasLink(e) {
      KeysStay(s.links, LinkKeys(e.network, LinkTypeOf(e), PeerOf(e), e.at), LinkDelta(e));
      assert LinkKeys(e.network, LinkTypeOf(e), PeerOf(e), e.at)[i] == LinkKey(e.network, PeriodOf(level, e.at), LinkTypeOf(e), PeerOf(e));
    }
  }

  lemma PeriodLevel(level: Level, at: Date)
    ensures LevelOf(PeriodOf(level, at)) == level
  {
  }

  lemma {:induction false} SumOfNothing(network: string, ps: seq<Period>, c: Counter)
    ensures SumNets(Empty(), network, ps, c) == 0
    decreases |ps|
  {
    if ps != [] {
      SumOfNothing(network, ps[..|ps| - 1], c);
    }
  }

  /** After any events, every counter of a network's all-time row is the sum over its day rows, the sum over
      its month rows and the sum over its year rows. */
  lemma {:induction false} RollUp(events: seq<Event>, network: string, level: Level, ps: seq<Period>, c: Counter)
    requires ListsRows(ps, AfterAll(events), network, level)
    ensures SumNets(AfterAll(events), network, ps, c) == At(NetRow(AfterAll(events), network, All), c)
    decreases |events|
  {
    hide After, NetRow, SumNets, NetDelta, PeriodOf, LevelOf, Counted, Distinct;
    if events == [] {
      SumOfNothing(network, ps, c);
      NoRow(network, c);
    } else {
      var front, e := events[..|events| - 1], events[|events| - 1];
      var s := AfterAll(front);
      RowsStay(s, e);
      RollUp(front, network, level, ps, c);
      SumNetsAfter(s, e, network, level, ps, c);
      NetRowAfter(s, e, network, All, c);
      AllIsEver(e.at);
      if Touches(e, network) {
        NewRows(s, e, level);
        PeriodLevel(level, e.at);
      }
    }
  }

  lemma NoRow(network: string, c: Counter)
    ensures At(NetRow(Empty(), network, All), c) == 0
  {
  }

  lemma AllIsEver(at: Date)
    ensures All == PeriodOf(LevelOf(All), at)
  {
  }

  // ---------------------------------------------------------------- links

  /** The sum of a counter over the link rows of some peers. */
  function SumLinks(s: Store, network: string, p: Period, linkType: string, peers: seq<string>, c: Counter): int {
    if peers == [] then 0
    else SumLinks(s, network, p, linkType, peers[..|peers| - 1], c) + At(LinkRow(s, network, p, linkType, peers[|peers| - 1]), c)
  }

  /** A list of all peers that have a link row of this type for a network and period. */
  predicate ListsPeers(peers: seq<string>, s: Store, network: string, p: Period, linkType: string) {
    Distinct(peers) && forall k :: k in s.links && k.network == network && k.period == p && k.linkType == linkType ==> k.peer in peers
  }

  /** The event is counted for this network and period, over a link of this type. */
  predicate Over(e: Event, network: string, p: Period, linkType: string) {
    Touches(e, network) && p == PeriodOf(LevelOf(p), e.at) && LinkTypeOf(e) == linkType
  }

  /** What the events of one type of link add up to. */
  function Traffic(events: seq<Event>, network: string, p: Period, linkType: string, c: Counter): int {
    if events == [] then 0
    else
      var e := events[|events| - 1];
      Traffic(events[..|events| - 1], network, p, linkType, c) + (if Over(e, network, p, linkType) then At(LinkDelta(e), c) else 0)
  }

  /** The part of it that names no peer. */
  function Anonymous(events: seq<Event>, network: string, p: Period, linkType: string, c: Counter): int {
    if events == [] then 0
    else
      var e := events[|events| - 1];
      Anonymous(events[..|events| - 1], network, p, linkType, c)
      + (if Over(e, network, p, linkType) && PeerOf(e) == "" then At(LinkDelta(e), c) else 0)
  }

  lemma {:induction false} SumLinksAfter(s: Store, e: Event, network: string, p: Period, linkType: string, peers: seq<string>, c: Counter)
    requires Distinct(peers) && linkType != ""
    ensures SumLinks(After(s, e), network, p, linkType, peers, c)
         == SumLinks(s, network, p, linkType, peers, c)
          + (if Over(e, network, p, linkType) && PeerOf(e) != "" && PeerOf(e) in peers then At(LinkDelta(e), c) else 0)
    decreases |peers|
  {
    hide LinkDelta, After, LinkRow, PeriodOf, LevelOf, Counted, LinkTypeOf, PeerOf;
    if peers != [] {
      var front, last := peers[..|peers| - 1], peers[|peers| - 1];
      SumLinksAfter(s, e, network, p, linkType, front, c);
      LinkRowAfter(s, e, network, p, linkType, last, c);
      assert peers == front + [last];
      assert last !in front;
    }
  }

  lemma {:induction false} NoLinks(network: string, p: Period, linkType: string, peers: seq<string>, c: Counter)
    ensures SumLinks(Empty(), network, p, linkType, peers, c) == 0
    decreases |peers|
  {
    if peers != [] {
      NoLinks(network, p, linkType, peers[..|peers| - 1], c);
    }
  }

  lemma PeerIsListed(s: Store, e: Event, network: string, p: Period, linkType: string, peers: seq<string>)
    requires ListsPeers(peers, After(s, e), network, p, linkType) && linkType != ""
    requires Over(e, network, p, linkType) && PeerOf(e) != ""
    ensures PeerOf(e) in peers
  {
    hide After, PeriodOf, LevelOf, LinkTypeOf, PeerOf;
    NewRows(s, e, LevelOf(p));
  }

  lemma ListsDistinct(peers: seq<string>, s: Store, network: string, p: Period, linkType: string)
    requires ListsPeers(peers, s, network, p, linkType)
    ensures Distinct(peers)
  {
    hide Distinct;
  }

  lemma ListedBefore(s: Store, e: Event, network: string, p: Period, linkType: string, peers: seq<string>)
    requires ListsPeers(peers, After(s, e), network, p, linkType)
    ensures ListsPeers(peers, s, network, p, linkType)
  {
    hide After, Distinct;
    RowsStay(s, e);
  }

  lemma AfterSnoc(front: seq<Event>, e: Event)
    ensures AfterAll(front + [e]) == After(AfterAll(front), e)
  {
    hide After;
    assert (front + [e])[..|front|] == front;
  }

  lemma TrafficSnoc(front: seq<Event>, e: Event, network: string, p: Period, linkType: string, c: Counter)
    ensures Traffic(front + [e], network, p, linkType, c)
         == Traffic(front, network, p, linkType, c) + (if Over(e, network, p, linkType) then At(LinkDelta(e), c) else 0)
  {
    hide LinkDelta, Over, At;
    assert (front + [e])[..|front|] == front;
  }

  lemma AnonymousSnoc(front: seq<Event>, e: Event, network: string, p: Period, linkType: string, c: Counter)
    ensures Anonymous(front + [e], network, p, linkType, c)
         == Anonymous(front, network, p, linkType, c) + (if Over(e, network, p, linkType) && PeerOf(e) == "" then At(LinkDelta(e), c) else 0)
  {
    hide LinkDelta, Over, PeerOf, At;
    assert (front + [e])[..|front|] == front;
  }

  lemma LinkRowsStep(s: Store, e: Event, network: string, p: Period, linkType: string, peers: seq<string>, c: Counter)
    requires linkType != "" && ListsPeers(peers, After(s, e), network, p, linkType)
    ensures SumLinks(After(s, e), network, p, linkType, peers, c) + (if Over(e, network, p, linkType) && PeerOf(e) == "" then At(LinkDelta(e), c) else 0)
         == SumLinks(s, network, p, linkType, peers, c) + (if Over(e, network, p, linkType) then At(LinkDelta(e), c) else 0)
  {
    hide After, SumLinks, LinkDelta, Over, PeerOf, At, ListsPeers;
    ListsDistinct(peers, After(s, e), network, p, linkType);
    SumLinksAfter(s, e, network, p, linkType, peers, c);
    if Over(e, network, p, linkType) && PeerOf(e) != "" {
      PeerIsListed(s, e, network, p, linkType, peers);
    }
  }

  /** The link rows of a type add up to the traffic that names its peer. */
  lemma {:induction false} LinkRowsAddUp(events: seq<Event>, network: string, p: Period, linkType: string, peers: seq<string>, c: Counter)
    requires linkType != "" && ListsPeers(peers, AfterAll(events), network, p, linkType)
    ensures SumLinks(AfterAll(events), network, p, linkType, peers, c) + Anonymous(events, network, p, linkType, c)
         == Traffic(events, network, p, linkType, c)
    decreases |events|
  {
    if events == [] {
      NoLinks(network, p, linkType, peers, c);
    } else {
      hide *;
      var front, e := events[..|events| - 1], events[|events| - 1];
      assert events == front + [e];
      AfterSnoc(front, e);
      TrafficSnoc(front, e, network, p, linkType, c);
      AnonymousSnoc(front, e, network, p, linkType, c);
      ListedBefore(AfterAll(front), e, network, p, linkType, peers);
      LinkRowsAddUp(front, network, p, linkType, peers, c);
      LinkRowsStep(AfterAll(front), e, network, p, linkType, peers, c);
    }
  }

  /** The four poll columns, per side of a network row and of a link row. */
  datatype PollColumn = OK | Fail | Sent | Recv

  function LinkColumn(c: PollColumn): Counter {
    match c case OK => LinkOK case Fail => LinkFail case Sent => LinkSent case Recv => LinkRecv
  }

  function ClientColumn(c: PollColumn): Counter {
    match c case OK => ClientOK case Fail => ClientFail case Sent => ClientSent case Recv => ClientRecv
  }

  function UplinkColumn(c: PollColumn): Counter {
    match c case OK => UplinkOK case Fail => UplinkFail case Sent => UplinkSent case Recv => UplinkRecv
  }

  function DownlinkColumn(c: PollColumn): Counter {
    match c case OK => DownlinkOK case Fail => DownlinkFail case Sent => DownlinkSent case Recv => DownlinkRecv
  }

  /** What one poll column of a row gets, and that the others get nothing of it. */
  function PollShare(k: Counter, ok: bool, sent: int, recv: int, a: Counter, b: Counter, c: Counter, d: Counter): int {
    if k == a then (if ok then 1 else 0) else if k == b then (if ok then 0 else 1) else if k == c then sent else if k == d then recv else 0
  }

  lemma PollAt(k: Counter, ok: bool, sent: int, recv: int, a: Counter, b: Counter, c: Counter, d: Counter)
    requires a != b && a != c && a != d && b != c && b != d && c != d
    ensures At(Poll(ok, sent, recv, a, b, c, d), k) == PollShare(k, ok, sent, recv, a, b, c, d)
  {
  }

  lemma ClientDelta(ok: bool, sent: int, recv: int, c: PollColumn)
    ensures var n := Poll(ok, sent, recv, ClientOK, ClientFail, ClientSent, ClientRecv);
      var l := Poll(ok, sent, recv, LinkOK, LinkFail, LinkSent, LinkRecv);
      && At(n, ClientColumn(c)) == At(l, LinkColumn(c))
      && At(n, UplinkColumn(c)) == At(n, DownlinkColumn(c)) == At(n, NetmailSent) == At(l, NetmailSent) == 0
  {
    hide Poll, At;
    PollAt(ClientColumn(c), ok, sent, recv, ClientOK, ClientFail, ClientSent, ClientRecv);
    PollAt(UplinkColumn(c), ok, sent, recv, ClientOK, ClientFail, ClientSent, ClientRecv);
    PollAt(DownlinkColumn(c), ok, sent, recv, ClientOK, ClientFail, ClientSent, ClientRecv);
    PollAt(NetmailSent, ok, sent, recv, ClientOK, ClientFail, ClientSent, ClientRecv);
    PollAt(LinkColumn(c), ok, sent, recv, LinkOK, LinkFail, LinkSent, LinkRecv);
    PollAt(NetmailSent, ok, sent, recv, LinkOK, LinkFail, LinkSent, LinkRecv);
  }

  lemma UplinkDelta(ok: bool, sent: int, recv: int, c: PollColumn)
    ensures var u := Poll(ok, sent, recv, UplinkOK, UplinkFail, UplinkSent, UplinkRecv);
      var l := Poll(ok, sent, recv, LinkOK, LinkFail, LinkSent, LinkRecv);
      && At(u, UplinkColumn(c)) == At(l, LinkColumn(c))
      && At(u, ClientColumn(c)) == At(u, DownlinkColumn(c)) == At(u, NetmailSent) == At(l, NetmailSent) == 0
  {
    hide Poll, At;
    PollAt(ClientColumn(c), ok, sent, recv, UplinkOK, UplinkFail, UplinkSent, UplinkRecv);
    PollAt(UplinkColumn(c), ok, sent, recv, UplinkOK, UplinkFail, UplinkSent, UplinkRecv);
    PollAt(DownlinkColumn(c), ok, sent, recv, UplinkOK, UplinkFail, UplinkSent, UplinkRecv);
    PollAt(NetmailSent, ok, sent, recv, UplinkOK, UplinkFail, UplinkSent, UplinkRecv);
    PollAt(LinkColumn(c), ok, sent, recv, LinkOK, LinkFail, LinkSent, LinkRecv);
    PollAt(NetmailSent, ok, sent, recv, LinkOK, LinkFail, LinkSent, LinkRecv);
  }

  lemma DownlinkDelta(ok: bool, sent: int, recv: int, c: PollColumn)
    ensures var d := Poll(ok, sent, recv, DownlinkOK, DownlinkFail, DownlinkSent, DownlinkRecv);
      var l := Poll(ok, sent, recv, LinkOK, LinkFail, LinkSent, LinkRecv);
      && At(d, DownlinkColumn(c)) == At(l, LinkColumn(c))
      && At(d, ClientColumn(c)) == At(d, UplinkColumn(c)) == At(d, NetmailSent) == At(l, NetmailSent) == 0
  {
    hide Poll, At;
    PollAt(ClientColumn(c), ok, sent, recv, DownlinkOK, DownlinkFail, DownlinkSent, DownlinkRecv);
    PollAt(UplinkColumn(c), ok, sent, recv, DownlinkOK, DownlinkFail, DownlinkSent, DownlinkRecv);
    PollAt(DownlinkColumn(c), ok, sent, recv, DownlinkOK, DownlinkFail, DownlinkSent, DownlinkRecv);
    PollAt(NetmailSent, ok, sent, recv, DownlinkOK, DownlinkFail, DownlinkSent, DownlinkRecv);
    PollAt(LinkColumn(c), ok, sent, recv, LinkOK, LinkFail, LinkSent, LinkRecv);
    PollAt(NetmailSent, ok, sent, recv, LinkOK, LinkFail, LinkSent, LinkRecv);
  }

  /** An event adds the same to the network's columns for a type of link as to the link's own. */
  lemma SameDelta(e: Event, c: PollColumn)
    ensures At(NetDelta(e), ClientColumn(c)) + At(NetDelta(e), UplinkColumn(c)) == if LinkTypeOf(e) == UPLINK then At(LinkDelta(e), LinkColumn(c)) else 0
    ensures At(NetDelta(e), DownlinkColumn(c)) == if LinkTypeOf(e) == DOWNLINK then At(LinkDelta(e), LinkColumn(c)) else 0
    ensures At(NetDelta(e), NetmailSent) == if LinkTypeOf(e) == UPLINK then At(LinkDelta(e), NetmailSent) else 0
  {
    hide Poll;
    LinkTypesDiffer();
    match e
    case ClientPoll(_, _, _, ok, sent, recv) => ClientDelta(ok, sent, recv, c);
    case ServerSession(_, _, _, _, ok, sent, recv) =>
      UplinkDelta(ok, sent, recv, c);
      DownlinkDelta(ok, sent, recv, c);
    case _ =>
  }

  lemma LinkTypesDiffer()
    ensures UPLINK != DOWNLINK && UPLINK != "" && DOWNLINK != ""
  {
    assert UPLINK[0] != DOWNLINK[0];
  }

  /** The network rows hold all traffic, by type of link. */
  lemma {:induction false} NetRowsAddUp(events: seq<Event>, network: string, p: Period, c: PollColumn)
    ensures var row := NetRow(AfterAll(events), network, p);
      && At(row, ClientColumn(c)) + At(row, UplinkColumn(c)) == Traffic(events, network, p, UPLINK, LinkColumn(c))
      && At(row, DownlinkColumn(c)) == Traffic(events, network, p, DOWNLINK, LinkColumn(c))
      && At(row, NetmailSent) == Traffic(events, network, p, UPLINK, NetmailSent)
    decreases |events|
  {
    hide After, NetRow, NetDelta, LinkDelta, LinkTypeOf, ClientColumn, UplinkColumn, DownlinkColumn, LinkColumn, PeriodOf, LevelOf, Counted;
    if events == [] {
      NoNetRow(network, p, ClientColumn(c));
      NoNetRow(network, p, UplinkColumn(c));
      NoNetRow(network, p, DownlinkColumn(c));
      NoNetRow(network, p, NetmailSent);
    } else {
      var front, e := events[..|events| - 1], events[|events| - 1];
      NetRowsAddUp(front, network, p, c);
      NetRowAfter(AfterAll(front), e, network, p, ClientColumn(c));
      NetRowAfter(AfterAll(front), e, network, p, UplinkColumn(c));
      NetRowAfter(AfterAll(front), e, network, p, DownlinkColumn(c));
      NetRowAfter(AfterAll(front), e, network, p, NetmailSent);
      SameDelta(e, c);
    }
  }

  lemma NoNetRow(network: string, p: Period, c: Counter)
    ensures At(NetRow(Empty(), network, p), c) == 0
  {
  }

  /** In every period the uplink rows account for the client's polls and the sessions of the uplink, the
      downlink rows for those of the downlinks, except for what named no peer. */
  lemma LinksAccountForPolls(events: seq<Event>, network: string, p: Period, up: seq<string>, down: seq<string>, c: PollColumn)
    requires ListsPeers(up, AfterAll(events), network, p, UPLINK) && ListsPeers(down, AfterAll(events), network, p, DOWNLINK)
    ensures var s := AfterAll(events);
      var row := NetRow(s, network, p);
      && SumLinks(s, network, p, UPLINK, up, LinkColumn(c)) + Anonymous(events, network, p, UPLINK, LinkColumn(c))
           == At(row, ClientColumn(c)) + At(row, UplinkColumn(c))
      && SumLinks(s, network, p, DOWNLINK, down, LinkColumn(c)) + Anonymous(events, network, p, DOWNLINK, LinkColumn(c))
           == At(row, DownlinkColumn(c))
      && SumLinks(s, network, p, UPLINK, up, NetmailSent) + Anonymous(events, network, p, UPLINK, NetmailSent)
           == At(row, NetmailSent)
  {
    hide AfterAll, SumLinks, Anonymous, Traffic, NetRow, ListsPeers, LinkColumn, ClientColumn, UplinkColumn, DownlinkColumn;
    NetRowsAddUp(events, network, p, c);
    LinkRowsAddUp(events, network, p, UPLINK, up, LinkColumn(c));
    LinkRowsAddUp(events, network, p, DOWNLINK, down, LinkColumn(c));
    LinkRowsAddUp(events, network, p, UPLINK, up, NetmailSent);
  }

  /** Nothing is anonymous when every event over a link names its peer. */
  lemma {:induction false} NamedPeers(events: seq<Event>, network: string, p: Period, linkType: string, c: Counter)
    requires forall i :: 0 <= i < |events| && LinkTypeOf(events[i]) == linkType ==> PeerOf(events[i]) != ""
    ensures Anonymous(events, network, p, linkType, c) == 0
    decreases |events|
  {
    hide LinkDelta, PeerOf, LinkTypeOf;
    if events != [] {
      NamedPeers(events[..|events| - 1], network, p, linkType, c);
    }
  }

  // ---------------------------------------------------------------- as a table that changes

  /** The two tables, and the recorders that write to them. */
  class StatsDB {
    var nets: map<NetKey, Counts>
    var links: map<LinkKey, Counts>

    function Contents(): Store
      reads this
    {
      Store(nets, links)
    }

    constructor ()
      ensures Contents() == Empty()
    {
      nets, links := map[], map[];
    }

    /** `applyStats` */
    method ApplyStats(network: string, at: Date, d: Counts)
      modifies this`nets
      ensures nets == if network == "" then old(nets) else AddedToAll(old(nets), NetKeys(network, at), d)
    {
      if network == "" {
        return;
      }
      var keys := Periods(at);
      for i := 0 to 4
        invariant nets == AddedToAll(old(nets), NetKeys(network, at)[..i], d)
      {
        assert NetKeys(network, at)[..i + 1] == NetKeys(network, at)[..i] + [NetKey(network, keys[i])];
        nets := Added(nets, NetKey(network, keys[i]), d);
      }
      assert NetKeys(network, at)[..4] == NetKeys(network, at);
    }

    /** `applyLinkStats` */
    method ApplyLinkStats(network: string, linkType: string, peer: string, at: Date, d: Counts)
      modifies this`links
      ensures links == if network == "" || linkType == "" || peer == "" then old(links)
                       else AddedToAll(old(links), LinkKeys(network, linkType, peer, at), d)
    {
      if network == "" || linkType == "" || peer == "" {
        return;
      }
      var keys := Periods(at);
      for i := 0 to 4
        invariant links == AddedToAll(old(links), LinkKeys(network, linkType, peer, at)[..i], d)
      {
        assert LinkKeys(network, linkType, peer, at)[..i + 1] == LinkKeys(network, linkType, peer, at)[..i] + [LinkKey(network, keys[i], linkType, peer)];
        links := Added(links, LinkKey(network, keys[i], linkType, peer), d);
      }
      assert LinkKeys(network, linkType, peer, at)[..4] == LinkKeys(network, linkType, peer, at);
    }

    method RecordClientPoll(network: string, at: Date, uplink: string, ok: bool, sent: int, recv: int)
      modifies this
      ensures Contents() == After(old(Contents()), ClientPoll(network, at, uplink, ok, sent, recv))
    {
      hide AddedToAll;
      ApplyStats(network, at, Poll(ok, sent, recv, ClientOK, ClientFail, ClientSent, ClientRecv));
      if uplink != "" {
        ApplyLinkStats(network, UPLINK, uplink, at, Poll(ok, sent, recv, LinkOK, LinkFail, LinkSent, LinkRecv));
      }
    }

    method RecordServerSession(network: string, at: Date, linkType: string, peer: string, ok: bool, sent: int, recv: int)
      modifies this
      ensures Contents() == After(old(Contents()), ServerSession(network, at, linkType, peer, ok, sent, recv))
    {
      hide AddedToAll;
      var d: Counts := map[];
      if linkType == UPLINK {
        d := Poll(ok, sent, recv, UplinkOK, UplinkFail, UplinkSent, UplinkRecv);
      } else if linkType == DOWNLINK {
        d := Poll(ok, sent, recv, DownlinkOK, DownlinkFail, DownlinkSent, DownlinkRecv);
      }
      ApplyStats(network, at, d);
      if peer != "" {
        ApplyLinkStats(network, linkType, peer, at, Poll(ok, sent, recv, LinkOK, LinkFail, LinkSent, LinkRecv));
      }
    }

    method RecordSessionError(network: string, at: Date)
      modifies this
      ensures Contents() == After(old(Contents()), SessionError(network, at))
    {
      hide AddedToAll;
      ApplyStats(network, at, map[SessionErrors := 1]);
    }

    method RecordToss(network: string, at: Date, t: TossResult)
      modifies this
      ensures Contents() == After(old(Contents()), Toss(network, at, t))
    {
      hide AddedToAll;
      ApplyStats(network, at, map[NetmailRecv := t.netmail, EchomailRecv := t.echomail, TossImported := t.imported,
        TossSkipped := t.skipped, TossDuplicate := t.duplicate, TossHoldFailed := t.holdFailed,
        TossInsertFailed := t.insertFailed, TossHeld := t.orphaned, TossPackets := t.packets]);
    }

    method RecordScan(network: string, at: Date, scanned: int)
      modifies this
      ensures Contents() == After(old(Contents()), Scan(network, at, scanned))
    {
      hide AddedToAll;
      if scanned <= 0 {
        return;
      }
      ApplyStats(network, at, map[EchomailSent := scanned]);
    }

    method RecordNetmailSent(network: string, at: Date, dest: string, count: int)
      modifies this
      ensures Contents() == After(old(Contents()), NetmailQueued(network, at, dest, count))
    {
      hide AddedToAll;
      if count <= 0 {
        return;
      }
      ApplyStats(network, at, map[NetmailSent := count]);
      if dest != "" {
        ApplyLinkStats(network, UPLINK, dest, at, map[NetmailSent := count]);
      }
    }
  }
}
