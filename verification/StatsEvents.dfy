/** What each recorded event adds to each counter, written out: to the rows of its network for the day, month and year
    of its date and for all time, and to the rows of the link it went over; and what a network takes from a link. */
module StatsEvents {
  import opened StatsStore
  import opened StatsMerge

  /** The four periods of a date. */
  predicate Covers(p: Period, at: Date) {
    p == Day(at) || p == Month(at.year, at.month) || p == Year(at.year) || p == All
  }

  /** What the event adds to a counter in the row of its network. */
  function Gain(s: Store, e: Event, p: Period, c: Counter): int {
    At(NetRow(After(s, e), e.network, p), c) - At(NetRow(s, e.network, p), c)
  }

  /** What it adds to a counter in the row of a link. */
  function LinkGain(s: Store, e: Event, p: Period, linkType: string, peer: string, c: Counter): int {
    At(LinkRow(After(s, e), e.network, p, linkType, peer), c) - At(LinkRow(s, e.network, p, linkType, peer), c)
  }

  lemma GainIs(s: Store, e: Event, p: Period, c: Counter)
    requires e.network != "" && Covers(p, e.at)
    ensures Gain(s, e, p, c) == if Counted(e) then At(NetDelta(e), c) else 0
  {
    hide NetDelta, At, NetRow, After;
    NetRowAfter(s, e, e.network, p, c);
  }

  lemma LinkGainIs(s: Store, e: Event, p: Period, linkType: string, peer: string, c: Counter)
    requires e.network != "" && Covers(p, e.at) && linkType != "" && peer != ""
    ensures LinkGain(s, e, p, linkType, peer, c) ==
      if Counted(e) && LinkTypeOf(e) == linkType && PeerOf(e) == peer then At(LinkDelta(e), c) else 0
  {
    hide LinkDelta, At, LinkRow, After, LinkTypeOf, PeerOf;
    LinkRowAfter(s, e, e.network, p, linkType, peer, c);
  }

  /** Nothing is added outside the date's own periods, or to another network. */
  lemma NothingElsewhere(s: Store, e: Event, network: string, p: Period, c: Counter)
    requires network != e.network || !Covers(p, e.at)
    ensures At(NetRow(After(s, e), network, p), c) == At(NetRow(s, network, p), c)
  {
    hide NetDelta, At, NetRow, After;
    NetRowAfter(s, e, network, p, c);
  }

  /** An outbound poll. */
  lemma ClientPollAdds(s: Store, network: string, at: Date, peer: string, ok: bool, sent: int, recv: int, p: Period)
    requires network != "" && Covers(p, at)
    ensures var e := ClientPoll(network, at, peer, ok, sent, recv);
      && Gain(s, e, p, ClientOK) == (if ok then 1 else 0) && Gain(s, e, p, ClientFail) == (if ok then 0 else 1)
      && Gain(s, e, p, ClientSent) == sent && Gain(s, e, p, ClientRecv) == recv
    ensures var e := ClientPoll(network, at, peer, ok, sent, recv);
      peer != "" ==>
        && LinkGain(s, e, p, "uplink", peer, LinkOK) == (if ok then 1 else 0)
        && LinkGain(s, e, p, "uplink", peer, LinkFail) == (if ok then 0 else 1)
        && LinkGain(s, e, p, "uplink", peer, LinkSent) == sent && LinkGain(s, e, p, "uplink", peer, LinkRecv) == recv
  {
    hide Gain, LinkGain;
    var e := ClientPoll(network, at, peer, ok, sent, recv);
    GainIs(s, e, p, ClientOK);
    GainIs(s, e, p, ClientFail);
    GainIs(s, e, p, ClientSent);
    GainIs(s, e, p, ClientRecv);
    if peer != "" {
      LinkGainIs(s, e, p, "uplink", peer, LinkOK);
      LinkGainIs(s, e, p, "uplink", peer, LinkFail);
      LinkGainIs(s, e, p, "uplink", peer, LinkSent);
      LinkGainIs(s, e, p, "uplink", peer, LinkRecv);
    }
  }

  /** An inbound session from an uplink. */
  lemma UplinkSessionAdds(s: Store, network: string, at: Date, peer: string, ok: bool, sent: int, recv: int, p: Period)
    requires network != "" && Covers(p, at)
    ensures var e := ServerSession(network, at, "uplink", peer, ok, sent, recv);
      && Gain(s, e, p, UplinkOK) == (if ok then 1 else 0) && Gain(s, e, p, UplinkFail) == (if ok then 0 else 1)
      && Gain(s, e, p, UplinkSent) == sent && Gain(s, e, p, UplinkRecv) == recv
  {
    hide Gain;
    var e := ServerSession(network, at, "uplink", peer, ok, sent, recv);
    GainIs(s, e, p, UplinkOK);
    GainIs(s, e, p, UplinkFail);
    GainIs(s, e, p, UplinkSent);
    GainIs(s, e, p, UplinkRecv);
  }

  /** An inbound session from a downlink. */
  lemma DownlinkSessionAdds(s: Store, network: string, at: Date, peer: string, ok: bool, sent: int, recv: int, p: Period)
    requires network != "" && Covers(p, at)
    ensures var e := ServerSession(network, at, "downlink", peer, ok, sent, recv);
      && Gain(s, e, p, DownlinkOK) == (if ok then 1 else 0) && Gain(s, e, p, DownlinkFail) == (if ok then 0 else 1)
      && Gain(s, e, p, DownlinkSent) == sent && Gain(s, e, p, DownlinkRecv) == recv
  {
    hide Gain;
    var e := ServerSession(network, at, "downlink", peer, ok, sent, recv);
    assert "downlink"[0] != "uplink"[0];
    GainIs(s, e, p, DownlinkOK);
    GainIs(s, e, p, DownlinkFail);
    GainIs(s, e, p, DownlinkSent);
    GainIs(s, e, p, DownlinkRecv);
  }

  /** Either of them, on its link. */
  lemma SessionLinkAdds(s: Store, network: string, at: Date, linkType: string, peer: string, ok: bool, sent: int, recv: int, p: Period)
    requires network != "" && Covers(p, at) && linkType != "" && peer != ""
    ensures var e := ServerSession(network, at, linkType, peer, ok, sent, recv);
      && LinkGain(s, e, p, linkType, peer, LinkOK) == (if ok then 1 else 0)
      && LinkGain(s, e, p, linkType, peer, LinkFail) == (if ok then 0 else 1)
      && LinkGain(s, e, p, linkType, peer, LinkSent) == sent && LinkGain(s, e, p, linkType, peer, LinkRecv) == recv
  {
    hide LinkGain;
    var e := ServerSession(network, at, linkType, peer, ok, sent, recv);
    LinkGainIs(s, e, p, linkType, peer, LinkOK);
    LinkGainIs(s, e, p, linkType, peer, LinkFail);
    LinkGainIs(s, e, p, linkType, peer, LinkSent);
    LinkGainIs(s, e, p, linkType, peer, LinkRecv);
  }

  /** A toss: netmail and echomail received, and every outcome in its own column. */
  lemma TossAdds(s: Store, network: string, at: Date, t: TossResult, p: Period)
    requires network != "" && Covers(p, at)
    ensures var e := Toss(network, at, t);
      && Gain(s, e, p, NetmailRecv) == t.netmail && Gain(s, e, p, EchomailRecv) == t.echomail
      && Gain(s, e, p, TossImported) == t.imported && Gain(s, e, p, TossSkipped) == t.skipped
      && Gain(s, e, p, TossDuplicate) == t.duplicate && Gain(s, e, p, TossHoldFailed) == t.holdFailed
      && Gain(s, e, p, TossInsertFailed) == t.insertFailed && Gain(s, e, p, TossHeld) == t.orphaned
      && Gain(s, e, p, TossPackets) == t.packets
      && Gain(s, e, p, NetmailSent) == 0 && Gain(s, e, p, EchomailSent) == 0 && Gain(s, e, p, SessionErrors) == 0
  {
    hide Gain;
    var e := Toss(network, at, t);
    GainIs(s, e, p, NetmailRecv);
    GainIs(s, e, p, EchomailRecv);
    GainIs(s, e, p, TossImported);
    GainIs(s, e, p, TossSkipped);
    GainIs(s, e, p, TossDuplicate);
    GainIs(s, e, p, TossHoldFailed);
    GainIs(s, e, p, TossInsertFailed);
    GainIs(s, e, p, TossHeld);
    GainIs(s, e, p, TossPackets);
    GainIs(s, e, p, NetmailSent);
    GainIs(s, e, p, EchomailSent);
    GainIs(s, e, p, SessionErrors);
  }

  /** A session error; echomail scanned; netmail queued, also on the link to its uplink. */
  lemma OthersAdd(s: Store, network: string, at: Date, peer: string, n: int, p: Period)
    requires network != "" && Covers(p, at)
    ensures Gain(s, SessionError(network, at), p, SessionErrors) == 1
    ensures Gain(s, Scan(network, at, n), p, EchomailSent) == (if n > 0 then n else 0)
    ensures Gain(s, NetmailQueued(network, at, peer, n), p, NetmailSent) == (if n > 0 then n else 0)
    ensures peer != "" ==>
      LinkGain(s, NetmailQueued(network, at, peer, n), p, "uplink", peer, NetmailSent) == (if n > 0 then n else 0)
  {
    hide Gain, LinkGain;
    GainIs(s, SessionError(network, at), p, SessionErrors);
    GainIs(s, Scan(network, at, n), p, EchomailSent);
    GainIs(s, NetmailQueued(network, at, peer, n), p, NetmailSent);
    if peer != "" {
      LinkGainIs(s, NetmailQueued(network, at, peer, n), p, "uplink", peer, NetmailSent);
    }
  }

  // ---------------------------------------------------------------- what a network takes from a link

  lemma WithPollsFiles(n: Counts, l: Counts, ok: Counter, fail: Counter, sent: Counter, recv: Counter)
    requires ok != fail && ok != sent && ok != recv && fail != sent && fail != recv && sent != recv
    ensures var r := WithPolls(n, l, ok, fail, sent, recv);
      At(r, sent) == At(n, sent) + At(l, LinkSent) && At(r, recv) == At(n, recv) + At(l, LinkRecv)
  {
    hide At, AddTo;
  }

  /** An uplink's polls go to the client columns, when these are empty and the link has polls. */
  lemma UplinkFills(n: Counts, l: Counts)
    ensures var r := Enriched(n, "uplink", l);
      var takes := At(n, ClientOK) + At(n, ClientFail) == 0 && At(l, LinkOK) + At(l, LinkFail) > 0;
      && At(r, ClientOK) == At(n, ClientOK) + (if takes then At(l, LinkOK) else 0)
      && At(r, ClientFail) == At(n, ClientFail) + (if takes then At(l, LinkFail) else 0)
      && At(r, ClientSent) == At(n, ClientSent) + (if takes then At(l, LinkSent) else 0)
      && At(r, ClientRecv) == At(n, ClientRecv) + (if takes then At(l, LinkRecv) else 0)
  {
    hide At, Filled, PollsEnriched;
    var p := PollsEnriched(n, "uplink", l);
    UplinkPolls(n, l);
    AllFilledAt(p, l, ClientOK);
    AllFilledAt(p, l, ClientFail);
    AllFilledAt(p, l, ClientSent);
    AllFilledAt(p, l, ClientRecv);
  }

  lemma UplinkPolls(n: Counts, l: Counts)
    ensures var r := PollsEnriched(n, "uplink", l);
      var takes := At(n, ClientOK) + At(n, ClientFail) == 0 && At(l, LinkOK) + At(l, LinkFail) > 0;
      && At(r, ClientOK) == At(n, ClientOK) + (if takes then At(l, LinkOK) else 0)
      && At(r, ClientFail) == At(n, ClientFail) + (if takes then At(l, LinkFail) else 0)
      && At(r, ClientSent) == At(n, ClientSent) + (if takes then At(l, LinkSent) else 0)
      && At(r, ClientRecv) == At(n, ClientRecv) + (if takes then At(l, LinkRecv) else 0)
  {
    hide At, WithPolls;
    WithPollsAt(n, l, ClientOK, ClientFail, ClientSent, ClientRecv);
    WithPollsFiles(n, l, ClientOK, ClientFail, ClientSent, ClientRecv);
  }

  /** A downlink's polls go to the downlink columns. */
  lemma DownlinkFills(n: Counts, l: Counts)
    ensures var r := Enriched(n, "downlink", l);
      var takes := At(n, DownlinkOK) + At(n, DownlinkFail) == 0 && At(l, LinkOK) + At(l, LinkFail) > 0;
      && At(r, DownlinkOK) == At(n, DownlinkOK) + (if takes then At(l, LinkOK) else 0)
      && At(r, DownlinkFail) == At(n, DownlinkFail) + (if takes then At(l, LinkFail) else 0)
      && At(r, DownlinkSent) == At(n, DownlinkSent) + (if takes then At(l, LinkSent) else 0)
      && At(r, DownlinkRecv) == At(n, DownlinkRecv) + (if takes then At(l, LinkRecv) else 0)
  {
    hide At, Filled, PollsEnriched;
    var p := PollsEnriched(n, "downlink", l);
    DownlinkPolls(n, l);
    AllFilledAt(p, l, DownlinkOK);
    AllFilledAt(p, l, DownlinkFail);
    AllFilledAt(p, l, DownlinkSent);
    AllFilledAt(p, l, DownlinkRecv);
  }

  lemma DownlinkPolls(n: Counts, l: Counts)
    ensures var r := PollsEnriched(n, "downlink", l);
      var takes := At(n, DownlinkOK) + At(n, DownlinkFail) == 0 && At(l, LinkOK) + At(l, LinkFail) > 0;
      && At(r, DownlinkOK) == At(n, DownlinkOK) + (if takes then At(l, LinkOK) else 0)
      && At(r, DownlinkFail) == At(n, DownlinkFail) + (if takes then At(l, LinkFail) else 0)
      && At(r, DownlinkSent) == At(n, DownlinkSent) + (if takes then At(l, LinkSent) else 0)
      && At(r, DownlinkRecv) == At(n, DownlinkRecv) + (if takes then At(l, LinkRecv) else 0)
  {
    hide At, WithPolls;
    assert "downlink"[0] != "uplink"[0];
    WithPollsAt(n, l, DownlinkOK, DownlinkFail, DownlinkSent, DownlinkRecv);
    WithPollsFiles(n, l, DownlinkOK, DownlinkFail, DownlinkSent, DownlinkRecv);
  }

  /** Each of the four mail columns is taken over where the network's is 0 and the link's is not. */
  lemma MailFills(n: Counts, linkType: string, l: Counts, c: Counter)
    requires c == NetmailSent || c == NetmailRecv || c == EchomailSent || c == EchomailRecv
    ensures At(Enriched(n, linkType, l), c) == if At(n, c) == 0 && At(l, c) > 0 then At(l, c) else At(n, c)
  {
    hide At, Enriched;
    EnrichedMail(n, linkType, l, c);
  }
}
