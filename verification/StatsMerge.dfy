/** Query results: merging the rows of two periods, and filling network counters from link rows. Rows carry
    their key, `[network]` for a network and `[network, link type, peer]` for a link. */
module StatsMerge {
  import opened StatsStore

  type Key = seq<string>

  datatype Row = Row(key: Key, counts: Counts)

  // ---------------------------------------------------------------- the order of rows

  /** `<` on strings */
  predicate Below(a: string, b: string) {
    b != "" && (a == "" || a[0] < b[0] || (a[0] == b[0] && Below(a[1..], b[1..])))
  }

  /** Field by field. */
  predicate KeyBelow(a: Key, b: Key) {
    b != [] && (a == [] || Below(a[0], b[0]) || (a[0] == b[0] && KeyBelow(a[1..], b[1..])))
  }

  lemma {:induction false} BelowIsOrder(a: string, b: string)
    ensures !Below(a, a)
    ensures !(Below(a, b) && Below(b, a))
    ensures a != b ==> Below(a, b) || Below(b, a)
  {
    if a != "" {
      BelowIsOrder(a[1..], a[1..]);
      if b != "" {
        BelowIsOrder(a[1..], b[1..]);
        assert a == [a[0]] + a[1..] && b == [b[0]] + b[1..];
      }
    }
  }

  lemma {:induction false} BelowTransitive(a: string, b: string, c: string)
    requires Below(a, b) && Below(b, c)
    ensures Below(a, c)
  {
    if a != "" && a[0] == b[0] && b[0] == c[0] {
      BelowTransitive(a[1..], b[1..], c[1..]);
    }
  }

  lemma {:induction false} KeyBelowIsOrder(a: Key, b: Key)
    ensures !KeyBelow(a, a)
    ensures !(KeyBelow(a, b) && KeyBelow(b, a))
    ensures a != b ==> KeyBelow(a, b) || KeyBelow(b, a)
  {
    hide Below;
    if a != [] {
      BelowIsOrder(a[0], a[0]);
      KeyBelowIsOrder(a[1..], a[1..]);
      if b != [] {
        BelowIsOrder(a[0], b[0]);
        KeyBelowIsOrder(a[1..], b[1..]);
        assert a == [a[0]] + a[1..] && b == [b[0]] + b[1..];
      }
    }
  }

  lemma {:induction false} KeyBelowTransitive(a: Key, b: Key, c: Key)
    requires KeyBelow(a, b) && KeyBelow(b, c)
    ensures KeyBelow(a, c)
  {
    hide Below;
    if a != [] {
      if Below(a[0], b[0]) && Below(b[0], c[0]) {
        BelowTransitive(a[0], b[0], c[0]);
      } else if a[0] == b[0] && b[0] == c[0] {
        KeyBelowIsOrder(a, a);
        BelowIsOrder(a[0], a[0]);
        KeyBelowTransitive(a[1..], b[1..], c[1..]);
      }
    }
  }

  predicate SortedRows(rows: seq<Row>) {
    forall i, j :: 0 <= i < j < |rows| ==> KeyBelow(rows[i].key, rows[j].key)
  }

  predicate DistinctRows(rows: seq<Row>) {
    forall i, j :: 0 <= i < j < |rows| ==> rows[i].key != rows[j].key
  }

  lemma SortedIsDistinct(rows: seq<Row>)
    requires SortedRows(rows)
    ensures DistinctRows(rows)
  {
    hide KeyBelow;
    forall i, j | 0 <= i < j < |rows| ensures rows[i].key != rows[j].key {
      KeyBelowIsOrder(rows[i].key, rows[j].key);
    }
  }

  // ---------------------------------------------------------------- tables of rows

  predicate HasKey(rows: seq<Row>, k: Key) {
    exists i :: 0 <= i < |rows| && rows[i].key == k
  }

  /** The counters of the row with a key. */
  function CountsOf(rows: seq<Row>, k: Key): Counts {
    if rows == [] then map[]
    else if rows[|rows| - 1].key == k then rows[|rows| - 1].counts
    else CountsOf(rows[..|rows| - 1], k)
  }

  lemma {:induction false} CountsOfAt(rows: seq<Row>, i: nat)
    requires DistinctRows(rows) && i < |rows|
    ensures CountsOf(rows, rows[i].key) == rows[i].counts
    decreases |rows|
  {
    if i < |rows| - 1 {
      CountsOfAt(rows[..|rows| - 1], i);
    }
  }

  lemma {:induction false} CountsOfNone(rows: seq<Row>, k: Key)
    requires !HasKey(rows, k)
    ensures CountsOf(rows, k) == map[]
    decreases |rows|
  {
    if rows != [] {
      assert rows[|rows| - 1].key != k;
      assert forall i :: 0 <= i < |rows| - 1 ==> rows[..|rows| - 1][i] == rows[i];
      CountsOfNone(rows[..|rows| - 1], k);
    }
  }

  /** Inserts a row in its place. */
  method InsertRow(rows: seq<Row>, row: Row) returns (r: seq<Row>)
    requires SortedRows(rows) && !HasKey(rows, row.key)
    ensures SortedRows(r)
    ensures forall x :: x in r <==> x in rows || x == row
  {
    hide KeyBelow;
    var i := 0;
    while i < |rows| && KeyBelow(rows[i].key, row.key)
      invariant i <= |rows| && forall j :: 0 <= j < i ==> KeyBelow(rows[j].key, row.key)
    {
      i := i + 1;
    }
    if i < |rows| {
      KeyBelowIsOrder(rows[i].key, row.key);
    }
    r := rows[..i] + [row] + rows[i..];
    assert rows == rows[..i] + rows[i..];
    InsertedSorted(rows, i, row);
  }

  lemma InsertedSorted(rows: seq<Row>, n: nat, row: Row)
    requires SortedRows(rows) && n <= |rows|
    requires forall j :: 0 <= j < n ==> KeyBelow(rows[j].key, row.key)
    requires n < |rows| ==> KeyBelow(row.key, rows[n].key)
    ensures SortedRows(rows[..n] + [row] + rows[n..])
  {
    hide KeyBelow;
    var r := rows[..n] + [row] + rows[n..];
    forall j | n <= j < |rows| ensures KeyBelow(row.key, rows[j].key) {
      if j > n {
        KeyBelowTransitive(row.key, rows[n].key, rows[j].key);
      }
    }
    forall i, j | 0 <= i < j < |r| ensures KeyBelow(r[i].key, r[j].key) {
      var i', j' := if i > n then i - 1 else i, if j > n then j - 1 else j;
      assert i != n ==> r[i] == rows[i'];
      assert j != n ==> r[j] == rows[j'];
    }
  }

  /** The rows of a map, in order. */
  method SortedRowsOf(byKey: map<Key, Counts>) returns (out: seq<Row>)
    ensures SortedRows(out)
    ensures forall x :: x in out <==> x.key in byKey && byKey[x.key] == x.counts
  {
    hide KeyBelow;
    out := [];
    var keys := byKey.Keys;
    while keys != {}
      invariant keys <= byKey.Keys && SortedRows(out)
      invariant forall x :: x in out <==> x.key in byKey && x.key !in keys && byKey[x.key] == x.counts
      decreases |keys|
    {
      var k :| k in keys;
      forall i | 0 <= i < |out| ensures out[i].key != k {
        assert out[i] in out;
      }
      keys := keys - {k};
      out := InsertRow(out, Row(k, byKey[k]));
    }
  }

  /** Two sorted lists with the same rows are the same list. */
  lemma {:induction false} SortedUnique(a: seq<Row>, b: seq<Row>)
    requires SortedRows(a) && SortedRows(b)
    requires forall x :: x in a <==> x in b
    ensures a == b
    decreases |a|
  {
    hide KeyBelow;
    BothEmpty(a, b);
    if a != [] {
      assert a[0] in b;
      var j :| 0 <= j < |b| && b[j] == a[0];
      assert b[0] in a;
      var i :| 0 <= i < |a| && a[i] == b[0];
      KeyBelowIsOrder(a[0].key, b[0].key);
      assert i == 0 && j == 0;
      TailRows(a);
      TailRows(b);
      SortedUnique(a[1..], b[1..]);
      assert a == [a[0]] + a[1..] && b == [b[0]] + b[1..];
    }
  }

  lemma BothEmpty(a: seq<Row>, b: seq<Row>)
    requires forall x :: x in a <==> x in b
    ensures a == [] <==> b == []
  {
    if a != [] {
      assert a[0] in a;
    }
    if b != [] {
      assert b[0] in b;
    }
  }

  lemma TailRows(a: seq<Row>)
    requires SortedRows(a) && a != []
    ensures SortedRows(a[1..])
    ensures forall x :: x in a[1..] <==> x in a && x != a[0]
  {
    hide KeyBelow;
    SortedIsDistinct(a);
    forall x | x in a && x != a[0] ensures x in a[1..] {
      var i :| 0 <= i < |a| && a[i] == x;
      assert a[1..][i - 1] == x;
    }
    forall x | x in a[1..] ensures x in a && x != a[0] {
      var i :| 0 <= i < |a[1..]| && a[1..][i] == x;
      assert a[i + 1] == x;
    }
  }

  // ---------------------------------------------------------------- merging

  /** The rows of both results, once each and in order, with the counters added up. */
  predicate IsMerge(a: seq<Row>, b: seq<Row>, out: seq<Row>) {
    && SortedRows(out)
    && (forall i :: 0 <= i < |a| ==> HasKey(out, a[i].key))
    && (forall i :: 0 <= i < |b| ==> HasKey(out, b[i].key))
    && (forall i :: 0 <= i < |out| ==> HasKey(a, out[i].key) || HasKey(b, out[i].key))
    && (forall i, c :: 0 <= i < |out| ==> At(out[i].counts, c) == At(CountsOf(a, out[i].key), c) + At(CountsOf(b, out[i].key), c))
  }

  /** The table the merge builds: the rows of one result are stored, those of the other added. */
  function Stored(rows: seq<Row>): map<Key, Counts> {
    if rows == [] then map[]
    else Stored(rows[..|rows| - 1])[rows[|rows| - 1].key := rows[|rows| - 1].counts]
  }

  function Combined(table: map<Key, Counts>, rows: seq<Row>): map<Key, Counts> {
    if rows == [] then table
    else
      var before, r := Combined(table, rows[..|rows| - 1]), rows[|rows| - 1];
      before[r.key := if r.key in before then Plus(before[r.key], r.counts) else r.counts]
  }

  lemma {:induction false} StoredRows(rows: seq<Row>, k: Key)
    ensures k in Stored(rows) <==> HasKey(rows, k)
    ensures k in Stored(rows) ==> Stored(rows)[k] == CountsOf(rows, k)
    decreases |rows|
  {
    if rows != [] {
      StoredRows(rows[..|rows| - 1], k);
      KeySnoc(rows, k);
    }
  }

  lemma KeySnoc(rows: seq<Row>, k: Key)
    requires rows != []
    ensures HasKey(rows, k) <==> HasKey(rows[..|rows| - 1], k) || rows[|rows| - 1].key == k
  {
    var front := rows[..|rows| - 1];
    if HasKey(front, k) {
      var i :| 0 <= i < |front| && front[i].key == k;
      assert rows[i].key == k;
    }
    if HasKey(rows, k) {
      var i :| 0 <= i < |rows| && rows[i].key == k;
      assert i < |front| ==> front[i].key == k;
    }
  }

  lemma {:induction false} CombinedRows(table: map<Key, Counts>, rows: seq<Row>, k: Key)
    requires DistinctRows(rows)
    ensures k in Combined(table, rows) <==> k in table || HasKey(rows, k)
    ensures k in Combined(table, rows) ==> forall c :: At(Combined(table, rows)[k], c) == At(Get(table, k), c) + At(CountsOf(rows, k), c)
    decreases |rows|
  {
    if rows != [] {
      var front, r := rows[..|rows| - 1], rows[|rows| - 1];
      CombinedRows(table, front, k);
      KeySnoc(rows, k);
      if r.key == k {
        NotTwice(rows);
        CountsOfNone(front, k);
      }
    }
  }

  /** `mergeNetworkRows` and `mergeLinkRows` */
  method MergeRows(a: seq<Row>, b: seq<Row>) returns (out: seq<Row>)
    requires DistinctRows(a) && DistinctRows(b)
    ensures IsMerge(a, b, out)
  {
    hide SortedRows, Plus, CountsOf, HasKey;
    var byKey: map<Key, Counts> := map[];
    for i := 0 to |a|
      invariant byKey == Stored(a[..i])
    {
      assert a[..i + 1][..i] == a[..i];
      byKey := byKey[a[i].key := a[i].counts];
    }
    assert a[..|a|] == a && Combined(Stored(a), b[..0]) == Stored(a);
    for i := 0 to |b|
      invariant byKey == Combined(Stored(a), b[..i])
    {
      assert b[..i + 1][..i] == b[..i];
      byKey := byKey[b[i].key := if b[i].key in byKey then Plus(byKey[b[i].key], b[i].counts) else b[i].counts];
    }
    assert b[..|b|] == b;
    out := SortedRowsOf(byKey);
    MergedRows(a, b, out);
  }

  ghost predicate MergedAt(a: seq<Row>, b: seq<Row>, table: map<Key, Counts>, k: Key) {
    && (k in table <==> HasKey(a, k) || HasKey(b, k))
    && (k in table ==> forall c :: At(table[k], c) == At(CountsOf(a, k), c) + At(CountsOf(b, k), c))
  }

  lemma OwnKey(rows: seq<Row>, i: nat)
    requires i < |rows|
    ensures HasKey(rows, rows[i].key)
  {
  }

  lemma MergedRows(a: seq<Row>, b: seq<Row>, out: seq<Row>)
    requires DistinctRows(a) && DistinctRows(b) && SortedRows(out)
    requires forall x :: x in out <==> x.key in Combined(Stored(a), b) && Combined(Stored(a), b)[x.key] == x.counts
    ensures IsMerge(a, b, out)
  {
    hide SortedRows, DistinctRows, Plus, CountsOf, Stored, Combined;
    var table := Combined(Stored(a), b);
    forall k: Key ensures MergedAt(a, b, table, k) {
      StoredRows(a, k);
      CombinedRows(Stored(a), b, k);
      if !HasKey(a, k) {
        CountsOfNone(a, k);
      }
    }
    forall k: Key | k in table ensures HasKey(out, k) {
      var x := Row(k, table[k]);
      assert x in out;
    }
    forall i | 0 <= i < |a| ensures HasKey(out, a[i].key) {
      OwnKey(a, i);
      assert MergedAt(a, b, table, a[i].key);
    }
    forall i | 0 <= i < |b| ensures HasKey(out, b[i].key) {
      OwnKey(b, i);
      assert MergedAt(a, b, table, b[i].key);
    }
    forall i | 0 <= i < |out| ensures out[i].key in table && table[out[i].key] == out[i].counts && MergedAt(a, b, table, out[i].key) {
      assert out[i] in out;
    }
  }

  /** The sum of a counter over all rows. */
  function Total(rows: seq<Row>, c: Counter): int {
    if rows == [] then 0 else Total(rows[..|rows| - 1], c) + At(rows[|rows| - 1].counts, c)
  }

  /** The sum of what some rows hold under the keys of others. */
  function TotalUnder(keys: seq<Row>, rows: seq<Row>, c: Counter): int {
    if keys == [] then 0 else TotalUnder(keys[..|keys| - 1], rows, c) + At(CountsOf(rows, keys[|keys| - 1].key), c)
  }

  lemma {:induction false} TotalUnderSnoc(keys: seq<Row>, rows: seq<Row>, c: Counter)
    requires DistinctRows(keys) && DistinctRows(rows) && rows != []
    ensures var front, r := rows[..|rows| - 1], rows[|rows| - 1];
      TotalUnder(keys, rows, c) == TotalUnder(keys, front, c) + (if HasKey(keys, r.key) then At(r.counts, c) else 0)
    decreases |keys|
  {
    var front, r := rows[..|rows| - 1], rows[|rows| - 1];
    if keys != [] {
      TotalUnderSnoc(keys[..|keys| - 1], rows, c);
      KeySnoc(keys, r.key);
      var last := keys[|keys| - 1];
      if last.key == r.key {
        NotTwice(keys);
        NotTwice(rows);
        CountsOfNone(front, r.key);
      }
    }
  }

  lemma NotTwice(rows: seq<Row>)
    requires DistinctRows(rows) && rows != []
    ensures !HasKey(rows[..|rows| - 1], rows[|rows| - 1].key)
  {
    var front := rows[..|rows| - 1];
    forall i | 0 <= i < |front| ensures front[i].key != rows[|rows| - 1].key {
      assert front[i] == rows[i];
    }
  }

  /** Keys that cover all rows reach each of them once. */
  lemma {:induction false} TotalCovered(keys: seq<Row>, rows: seq<Row>, c: Counter)
    requires DistinctRows(keys) && DistinctRows(rows)
    requires forall i :: 0 <= i < |rows| ==> HasKey(keys, rows[i].key)
    ensures TotalUnder(keys, rows, c) == Total(rows, c)
    decreases |rows|
  {
    hide HasKey, CountsOf;
    if rows == [] {
      NothingUnder(keys, c);
    } else {
      TotalUnderSnoc(keys, rows, c);
      TotalCovered(keys, rows[..|rows| - 1], c);
    }
  }

  lemma {:induction false} NothingUnder(keys: seq<Row>, c: Counter)
    ensures TotalUnder(keys, [], c) == 0
    decreases |keys|
  {
    if keys != [] {
      NothingUnder(keys[..|keys| - 1], c);
    }
  }

  lemma {:induction false} TotalSplits(keys: seq<Row>, a: seq<Row>, b: seq<Row>, c: Counter)
    requires forall i :: 0 <= i < |keys| ==> At(keys[i].counts, c) == At(CountsOf(a, keys[i].key), c) + At(CountsOf(b, keys[i].key), c)
    ensures Total(keys, c) == TotalUnder(keys, a, c) + TotalUnder(keys, b, c)
    decreases |keys|
  {
    hide CountsOf;
    if keys != [] {
      TotalSplits(keys[..|keys| - 1], a, b, c);
    }
  }

  /** Merging loses and invents nothing: every counter adds up to the same over all rows. */
  lemma MergeConserves(a: seq<Row>, b: seq<Row>, out: seq<Row>, c: Counter)
    requires DistinctRows(a) && DistinctRows(b) && IsMerge(a, b, out)
    ensures Total(out, c) == Total(a, c) + Total(b, c)
  {
    hide DistinctRows, SortedRows, HasKey, CountsOf, Total, TotalUnder;
    SortedIsDistinct(out);
    TotalSplits(out, a, b, c);
    TotalCovered(out, a, c);
    TotalCovered(out, b, c);
  }

  // ---------------------------------------------------------------- enrichment

  /** A link row by its fields. */
  datatype Link = Link(network: string, linkType: string, peer: string, counts: Counts)

  function AddTo(n: Counts, k: Counter, v: int): (r: Counts)
    ensures forall j :: At(r, j) == At(n, j) + (if j == k then v else 0)
  {
    n[k := At(n, k) + v]
  }

  /** The network has no polls of a kind, and the link has some. */
  predicate Lacks(n: Counts, ok: Counter, fail: Counter, l: Counts) {
    At(n, ok) + At(n, fail) == 0 && At(l, LinkOK) + At(l, LinkFail) > 0
  }

  /** The poll columns of a link are added to those of its network. */
  function WithPolls(n: Counts, l: Counts, ok: Counter, fail: Counter, sent: Counter, recv: Counter): Counts {
    AddTo(AddTo(AddTo(AddTo(n, ok, At(l, LinkOK)), fail, At(l, LinkFail)), sent, At(l, LinkSent)), recv, At(l, LinkRecv))
  }

  function Filled(n: Counts, l: Counts, k: Counter): Counts {
    if At(n, k) == 0 && At(l, k) > 0 then AddTo(n, k, At(l, k)) else n
  }

  function PollsEnriched(n: Counts, linkType: string, l: Counts): Counts {
    if linkType == UPLINK && Lacks(n, ClientOK, ClientFail, l) then WithPolls(n, l, ClientOK, ClientFail, ClientSent, ClientRecv)
    else if linkType == DOWNLINK && Lacks(n, DownlinkOK, DownlinkFail, l) then WithPolls(n, l, DownlinkOK, DownlinkFail, DownlinkSent, DownlinkRecv)
    else n
  }

  /** One link row's turn in `enrichNetworkStatsFromLinks`. */
  function Enriched(n: Counts, linkType: string, l: Counts): Counts {
    Filled(Filled(Filled(Filled(PollsEnriched(n, linkType, l), l, NetmailSent), l, NetmailRecv), l, EchomailSent), l, EchomailRecv)
  }

  /** A network's counters after all its links. */
  function EnrichedBy(n: Counts, links: seq<Link>, network: string): Counts {
    if links == [] then n
    else
      var l := links[|links| - 1];
      var before := EnrichedBy(n, links[..|links| - 1], network);
      if l.network == network then Enriched(before, l.linkType, l.counts) else before
  }

  predicate MailSettled(n: Counts, l: Counts, k: Counter) {
    !(At(n, k) == 0 && At(l, k) > 0)
  }

  /** The link has nothing left to give. */
  predicate Settled(n: Counts, linkType: string, l: Counts) {
    && (linkType == UPLINK ==> !Lacks(n, ClientOK, ClientFail, l))
    && (linkType == DOWNLINK ==> !Lacks(n, DownlinkOK, DownlinkFail, l))
    && MailSettled(n, l, NetmailSent) && MailSettled(n, l, NetmailRecv)
    && MailSettled(n, l, EchomailSent) && MailSettled(n, l, EchomailRecv)
  }

  /** A counter that was 0 takes the link's, if that is positive. */
  function Owed(n: Counts, l: Counts, k: Counter): int {
    if At(n, k) == 0 && At(l, k) > 0 then At(l, k) else At(n, k)
  }

  lemma FilledAt(n: Counts, l: Counts, k: Counter, j: Counter)
    ensures At(Filled(n, l, k), j) == if j == k then Owed(n, l, k) else At(n, j)
  {
    hide At, AddTo;
  }

  predicate IsMail(k: Counter) {
    k == NetmailSent || k == NetmailRecv || k == EchomailSent || k == EchomailRecv
  }

  lemma AllFilledAt(p: Counts, l: Counts, j: Counter)
    ensures At(Filled(Filled(Filled(Filled(p, l, NetmailSent), l, NetmailRecv), l, EchomailSent), l, EchomailRecv), j)
         == if IsMail(j) then Owed(p, l, j) else At(p, j)
  {
    hide At, Filled;
    var a := Filled(p, l, NetmailSent);
    var b := Filled(a, l, NetmailRecv);
    var c := Filled(b, l, EchomailSent);
    FilledAt(p, l, NetmailSent, j);
    FilledAt(a, l, NetmailRecv, j);
    FilledAt(b, l, EchomailSent, j);
    FilledAt(c, l, EchomailRecv, j);
  }

  /** What one turn does to the counters that decide later turns. */
  lemma EnrichedPolls(n: Counts, linkType: string, l: Counts)
    ensures var r := Enriched(n, linkType, l);
      && At(r, ClientOK) + At(r, ClientFail) == At(n, ClientOK) + At(n, ClientFail)
           + (if linkType == UPLINK && Lacks(n, ClientOK, ClientFail, l) then At(l, LinkOK) + At(l, LinkFail) else 0)
      && At(r, DownlinkOK) + At(r, DownlinkFail) == At(n, DownlinkOK) + At(n, DownlinkFail)
           + (if linkType == DOWNLINK && Lacks(n, DownlinkOK, DownlinkFail, l) then At(l, LinkOK) + At(l, LinkFail) else 0)
  {
    hide At, Filled, PollsEnriched, Lacks;
    var p := PollsEnriched(n, linkType, l);
    PollsCounters(n, linkType, l);
    AllFilledAt(p, l, ClientOK);
    AllFilledAt(p, l, ClientFail);
    AllFilledAt(p, l, DownlinkOK);
    AllFilledAt(p, l, DownlinkFail);
  }

  lemma EnrichedMail(n: Counts, linkType: string, l: Counts, k: Counter)
    requires IsMail(k)
    ensures At(Enriched(n, linkType, l), k) == Owed(n, l, k)
  {
    hide At, Filled, PollsEnriched;
    AllFilledAt(PollsEnriched(n, linkType, l), l, k);
    PollsOther(n, linkType, l, k);
  }

  lemma PollsCounters(n: Counts, linkType: string, l: Counts)
    ensures var r := PollsEnriched(n, linkType, l);
      && At(r, ClientOK) + At(r, ClientFail) == At(n, ClientOK) + At(n, ClientFail)
           + (if linkType == UPLINK && Lacks(n, ClientOK, ClientFail, l) then At(l, LinkOK) + At(l, LinkFail) else 0)
      && At(r, DownlinkOK) + At(r, DownlinkFail) == At(n, DownlinkOK) + At(n, DownlinkFail)
           + (if linkType == DOWNLINK && Lacks(n, DownlinkOK, DownlinkFail, l) then At(l, LinkOK) + At(l, LinkFail) else 0)
  {
    hide At, AddTo, WithPolls;
    LinkTypesDiffer();
    if linkType == UPLINK {
      WithPollsAt(n, l, ClientOK, ClientFail, ClientSent, ClientRecv);
      WithPollsOther(n, l, ClientOK, ClientFail, ClientSent, ClientRecv, DownlinkOK);
      WithPollsOther(n, l, ClientOK, ClientFail, ClientSent, ClientRecv, DownlinkFail);
    } else if linkType == DOWNLINK {
      WithPollsAt(n, l, DownlinkOK, DownlinkFail, DownlinkSent, DownlinkRecv);
      WithPollsOther(n, l, DownlinkOK, DownlinkFail, DownlinkSent, DownlinkRecv, ClientOK);
      WithPollsOther(n, l, DownlinkOK, DownlinkFail, DownlinkSent, DownlinkRecv, ClientFail);
    }
  }

  lemma PollsOther(n: Counts, linkType: string, l: Counts, k: Counter)
    requires IsMail(k)
    ensures At(PollsEnriched(n, linkType, l), k) == At(n, k)
  {
    hide At, WithPolls, Lacks;
    WithPollsOther(n, l, ClientOK, ClientFail, ClientSent, ClientRecv, k);
    WithPollsOther(n, l, DownlinkOK, DownlinkFail, DownlinkSent, DownlinkRecv, k);
  }

  lemma WithPollsAt(n: Counts, l: Counts, ok: Counter, fail: Counter, sent: Counter, recv: Counter)
    requires ok != fail && ok != sent && ok != recv && fail != sent && fail != recv && sent != recv
    ensures var r := WithPolls(n, l, ok, fail, sent, recv);
      At(r, ok) == At(n, ok) + At(l, LinkOK) && At(r, fail) == At(n, fail) + At(l, LinkFail)
  {
    hide At, AddTo;
  }

  lemma WithPollsOther(n: Counts, l: Counts, ok: Counter, fail: Counter, sent: Counter, recv: Counter, k: Counter)
    requires k != ok && k != fail && k != sent && k != recv
    ensures At(WithPolls(n, l, ok, fail, sent, recv), k) == At(n, k)
  {
    hide At, AddTo;
  }

  lemma MailSettledOnce(n: Counts, linkType: string, l: Counts, k: Counter)
    requires IsMail(k)
    ensures MailSettled(Enriched(n, linkType, l), l, k)
  {
    hide Enriched, At;
    EnrichedMail(n, linkType, l, k);
  }

  lemma MailSettledStays(n: Counts, l: Counts, other: string, m: Counts, k: Counter)
    requires IsMail(k) && MailSettled(n, l, k)
    ensures MailSettled(Enriched(n, other, m), l, k)
  {
    hide Enriched, At;
    EnrichedMail(n, other, m, k);
  }

  lemma SettledOnce(n: Counts, linkType: string, l: Counts)
    ensures Settled(Enriched(n, linkType, l), linkType, l)
  {
    hide Enriched, At, MailSettled;
    EnrichedPolls(n, linkType, l);
    LinkTypesDiffer();
    MailSettledOnce(n, linkType, l, NetmailSent);
    MailSettledOnce(n, linkType, l, NetmailRecv);
    MailSettledOnce(n, linkType, l, EchomailSent);
    MailSettledOnce(n, linkType, l, EchomailRecv);
  }

  lemma SettledStays(n: Counts, linkType: string, l: Counts, other: string, m: Counts)
    requires Settled(n, linkType, l)
    ensures Settled(Enriched(n, other, m), linkType, l)
  {
    hide Enriched, At, MailSettled;
    EnrichedPolls(n, other, m);
    MailSettledStays(n, l, other, m, NetmailSent);
    MailSettledStays(n, l, other, m, NetmailRecv);
    MailSettledStays(n, l, other, m, EchomailSent);
    MailSettledStays(n, l, other, m, EchomailRecv);
  }

  lemma SettledIsFixed(n: Counts, linkType: string, l: Counts)
    requires Settled(n, linkType, l)
    ensures Enriched(n, linkType, l) == n
  {
  }

  lemma {:induction false} AllSettled(n: Counts, links: seq<Link>, network: string, i: nat)
    requires i < |links| && links[i].network == network
    ensures Settled(EnrichedBy(n, links, network), links[i].linkType, links[i].counts)
    decreases |links|
  {
    hide Enriched, Settled;
    var front, last := links[..|links| - 1], links[|links| - 1];
    var before := EnrichedBy(n, front, network);
    if i < |front| {
      AllSettled(n, front, network, i);
      SettledStays(before, links[i].linkType, links[i].counts, last.linkType, last.counts);
    } else {
      SettledOnce(before, last.linkType, last.counts);
    }
  }

  lemma {:induction false} NothingLeftToGive(n: Counts, links: seq<Link>, network: string)
    requires forall i :: 0 <= i < |links| && links[i].network == network ==> Settled(n, links[i].linkType, links[i].counts)
    ensures EnrichedBy(n, links, network) == n
    decreases |links|
  {
    hide Enriched, Settled;
    if links != [] {
      NothingLeftToGive(n, links[..|links| - 1], network);
      var l := links[|links| - 1];
      if l.network == network {
        SettledIsFixed(n, l.linkType, l.counts);
      }
    }
  }

  /** Enriching a network a second time changes nothing. */
  lemma EnrichTwice(n: Counts, links: seq<Link>, network: string)
    ensures EnrichedBy(EnrichedBy(n, links, network), links, network) == EnrichedBy(n, links, network)
  {
    hide EnrichedBy, Settled;
    var once := EnrichedBy(n, links, network);
    forall i | 0 <= i < |links| && links[i].network == network ensures Settled(once, links[i].linkType, links[i].counts) {
      AllSettled(n, links, network, i);
    }
    NothingLeftToGive(once, links, network);
  }

  /** A network of the result: it was there, or a link names it. */
  predicate Named(networks: seq<Row>, links: seq<Link>, k: Key) {
    HasKey(networks, k) || exists i :: 0 <= i < |links| && k == [links[i].network]
  }

  /** What enrichment makes of a result's network rows. */
  ghost predicate IsEnriched(before: seq<Row>, links: seq<Link>, after: seq<Row>) {
    && SortedRows(after)
    && (forall k :: HasKey(after, k) <==> Named(before, links, k))
    && (forall i :: 0 <= i < |after| ==>
          |after[i].key| == 1 && after[i].counts == EnrichedBy(CountsOf(before, after[i].key), links, after[i].key[0]))
  }

  lemma RowOfKey(rows: seq<Row>, k: Key)
    requires DistinctRows(rows) && HasKey(rows, k)
    ensures Row(k, CountsOf(rows, k)) in rows
  {
    hide CountsOf;
    var i :| 0 <= i < |rows| && rows[i].key == k;
    CountsOfAt(rows, i);
  }

  lemma SameRow(a: seq<Row>, links: seq<Link>, b: seq<Row>, c: seq<Row>, k: Key)
    requires IsEnriched(a, links, b) && IsEnriched(b, links, c)
    ensures HasKey(b, k) <==> HasKey(c, k)
    ensures HasKey(b, k) ==> CountsOf(b, k) == CountsOf(c, k)
  {
    hide SortedRows, CountsOf, EnrichedBy, DistinctRows;
    SortedIsDistinct(b);
    SortedIsDistinct(c);
    if HasKey(c, k) {
      assert Named(b, links, k);
      if exists i :: 0 <= i < |links| && k == [links[i].network] {
        assert Named(a, links, k);
      }
    }
    if HasKey(b, k) {
      assert Named(b, links, k);
      var i :| 0 <= i < |b| && b[i].key == k;
      var j :| 0 <= j < |c| && c[j].key == k;
      CountsOfAt(b, i);
      CountsOfAt(c, j);
      EnrichTwice(CountsOf(a, k), links, k[0]);
    }
  }

  /** Enriching a result a second time leaves every row, and their order, as they are. */
  lemma EnrichAgain(a: seq<Row>, links: seq<Link>, b: seq<Row>, c: seq<Row>)
    requires IsEnriched(a, links, b) && IsEnriched(b, links, c)
    ensures c == b
  {
    hide CountsOf, EnrichedBy, Named, SortedRows, HasKey, DistinctRows;
    SortedIsDistinct(b);
    SortedIsDistinct(c);
    forall x | x in b ensures x in c {
      OwnRow(b, x);
      SameRow(a, links, b, c, x.key);
      RowOfKey(c, x.key);
    }
    forall x | x in c ensures x in b {
      OwnRow(c, x);
      SameRow(a, links, b, c, x.key);
      RowOfKey(b, x.key);
    }
    SortedUnique(c, b);
  }

  lemma OwnRow(rows: seq<Row>, x: Row)
    requires DistinctRows(rows) && x in rows
    ensures HasKey(rows, x.key) && CountsOf(rows, x.key) == x.counts
  {
    hide CountsOf;
    var i :| 0 <= i < |rows| && rows[i] == x;
    CountsOfAt(rows, i);
  }

  /** `sort.Slice` on rows with different keys. */
  method SortRows(rows: seq<Row>) returns (out: seq<Row>)
    requires DistinctRows(rows)
    ensures SortedRows(out) && forall x :: x in out <==> x in rows
  {
    hide SortedRows, KeyBelow;
    out := [];
    NoRows();
    for i := 0 to |rows|
      invariant SortedRows(out) && forall x :: x in out <==> x in rows[..i]
    {
      forall j | 0 <= j < |out| ensures out[j].key != rows[i].key {
        assert out[j] in out;
      }
      assert rows[..i + 1] == rows[..i] + [rows[i]];
      out := InsertRow(out, rows[i]);
    }
    assert rows[..|rows|] == rows;
  }

  lemma NoRows()
    ensures SortedRows([])
  {
  }

  predicate NetworkKeys(rows: seq<Row>) {
    forall i :: 0 <= i < |rows| ==> |rows[i].key| == 1
  }

  /** The rows after some links, and where each network is. */
  ghost predicate Filling(before: seq<Row>, links: seq<Link>, rows: seq<Row>, byNet: map<Key, nat>) {
    && (forall k :: k in byNet <==> Named(before, links, k))
    && (forall k :: k in byNet ==> byNet[k] < |rows| && rows[byNet[k]].key == k)
    && (forall i :: 0 <= i < |rows| ==> rows[i].key in byNet && byNet[rows[i].key] == i)
    && (forall i :: 0 <= i < |rows| ==> RowFilled(before, links, rows[i]))
  }

  predicate RowFilled(before: seq<Row>, links: seq<Link>, r: Row) {
    |r.key| == 1 && r.counts == EnrichedBy(CountsOf(before, r.key), links, r.key[0])
  }

  lemma NamedSnoc(before: seq<Row>, links: seq<Link>, l: Link, k: Key)
    ensures Named(before, links + [l], k) <==> Named(before, links, k) || k == [l.network]
  {
    hide HasKey;
    if exists i :: 0 <= i < |links| && k == [links[i].network] {
      var i :| 0 <= i < |links| && k == [links[i].network];
      assert (links + [l])[i] == links[i];
    }
    if k == [l.network] {
      assert (links + [l])[|links|] == l;
    }
  }

  lemma EnrichedSnoc(n: Counts, links: seq<Link>, l: Link, network: string)
    ensures EnrichedBy(n, links + [l], network)
         == if l.network == network then Enriched(EnrichedBy(n, links, network), l.linkType, l.counts) else EnrichedBy(n, links, network)
  {
    hide Enriched;
    assert (links + [l])[..|links|] == links;
  }

  lemma {:induction false} NoLinkNames(n: Counts, links: seq<Link>, network: string)
    requires forall i :: 0 <= i < |links| ==> links[i].network != network
    ensures EnrichedBy(n, links, network) == n
    decreases |links|
  {
    hide Enriched;
    if links != [] {
      NoLinkNames(n, links[..|links| - 1], network);
    }
  }

  /** A network that is not named yet starts with nothing. */
  lemma NewNetwork(before: seq<Row>, links: seq<Link>, network: string)
    requires !Named(before, links, [network])
    ensures RowFilled(before, links, Row([network], map[]))
  {
    hide CountsOf, EnrichedBy;
    CountsOfNone(before, [network]);
    forall i | 0 <= i < |links| ensures links[i].network != network {
      var l := links[i];
      assert [network] != [l.network];
    }
    NoLinkNames(map[], links, network);
  }

  /** The row of the link's network gets the link's turn, the others wait for theirs. */
  lemma RowFilledNext(before: seq<Row>, links: seq<Link>, l: Link, r: Row)
    requires RowFilled(before, links, r)
    ensures RowFilled(before, links + [l], if r.key == [l.network] then Row(r.key, Enriched(r.counts, l.linkType, l.counts)) else r)
  {
    hide CountsOf, EnrichedBy, Enriched;
    EnrichedSnoc(CountsOf(before, r.key), links, l, r.key[0]);
    assert r.key == [r.key[0]];
  }

  /** The list with room for a network, and where it is. */
  function WithNetwork(rows: seq<Row>, byNet: map<Key, nat>, k: Key): (seq<Row>, map<Key, nat>) {
    if k in byNet then (rows, byNet) else (rows + [Row(k, map[])], byNet[k := |rows|])
  }

  lemma FillingGoesOn(before: seq<Row>, links: seq<Link>, l: Link, rows: seq<Row>, byNet: map<Key, nat>)
    requires Filling(before, links, rows, byNet)
    ensures var (rows', byNet') := WithNetwork(rows, byNet, [l.network]);
      var i := byNet'[[l.network]];
      && i < |rows'|
      && Filling(before, links + [l], rows'[i := Row([l.network], Enriched(rows'[i].counts, l.linkType, l.counts))], byNet')
  {
    hide RowFilled, Named, Enriched;
    var k := [l.network];
    var (rows', byNet') := WithNetwork(rows, byNet, k);
    var i := byNet'[k];
    var rows'' := rows'[i := Row(k, Enriched(rows'[i].counts, l.linkType, l.counts))];
    forall x: Key ensures x in byNet' <==> Named(before, links + [l], x) {
      NamedSnoc(before, links, l, x);
    }
    if k !in byNet {
      NewNetwork(before, links, l.network);
    }
    forall j | 0 <= j < |rows''| ensures RowFilled(before, links + [l], rows''[j]) {
      assert RowFilled(before, links, rows'[j]);
      RowFilledNext(before, links, l, rows'[j]);
    }
  }

  /** `byNet`: where each network's row is. */
  method IndexRows(rows: seq<Row>) returns (byNet: map<Key, nat>)
    requires DistinctRows(rows)
    ensures forall k :: k in byNet <==> HasKey(rows, k)
    ensures forall i :: 0 <= i < |rows| ==> rows[i].key in byNet && byNet[rows[i].key] == i
  {
    byNet := map[];
    for i := 0 to |rows|
      invariant forall k :: k in byNet <==> HasKey(rows[..i], k)
      invariant forall j :: 0 <= j < i ==> rows[j].key in byNet && byNet[rows[j].key] == j
    {
      forall k ensures HasKey(rows[..i + 1], k) <==> HasKey(rows[..i], k) || rows[i].key == k {
        assert rows[..i + 1][..i] == rows[..i];
        KeySnoc(rows[..i + 1], k);
      }
      byNet := byNet[rows[i].key := i];
    }
    assert rows[..|rows|] == rows;
  }

  lemma FillingStarts(before: seq<Row>, byNet: map<Key, nat>)
    requires DistinctRows(before) && NetworkKeys(before)
    requires forall k :: k in byNet <==> HasKey(before, k)
    requires forall i :: 0 <= i < |before| ==> before[i].key in byNet && byNet[before[i].key] == i
    ensures Filling(before, [], before, byNet)
  {
    hide CountsOf;
    forall k: Key ensures Named(before, [], k) <==> HasKey(before, k) {
    }
    forall i | 0 <= i < |before| ensures RowFilled(before, [], before[i]) {
      CountsOfAt(before, i);
    }
  }

  lemma FillingEnds(before: seq<Row>, links: seq<Link>, rows: seq<Row>, byNet: map<Key, nat>)
    requires Filling(before, links, rows, byNet)
    ensures DistinctRows(rows)
    ensures forall out: seq<Row> :: SortedRows(out) && (forall x :: x in out <==> x in rows) ==> IsEnriched(before, links, out)
  {
    hide SortedRows, Named, RowFilled;
    forall out: seq<Row> | SortedRows(out) && (forall x :: x in out <==> x in rows) ensures IsEnriched(before, links, out) {
      SameRowsEnriched(before, links, rows, byNet, out);
    }
  }

  lemma SameRowsEnriched(before: seq<Row>, links: seq<Link>, rows: seq<Row>, byNet: map<Key, nat>, out: seq<Row>)
    requires Filling(before, links, rows, byNet) && SortedRows(out) && (forall x :: x in out <==> x in rows)
    ensures IsEnriched(before, links, out)
  {
    hide SortedRows, Named, EnrichedBy, CountsOf;
    forall k: Key ensures HasKey(out, k) <==> Named(before, links, k) {
      if k in byNet {
        assert rows[byNet[k]] in out;
      }
      if HasKey(out, k) {
        var i :| 0 <= i < |out| && out[i].key == k;
        assert out[i] in rows;
      }
    }
    forall i | 0 <= i < |out| ensures RowFilled(before, links, out[i]) {
      assert out[i] in rows;
    }
  }

  /** A query result whose network rows are filled in place. */
  class StatsResult {
    var networks: seq<Row>
    const links: seq<Link>

    constructor (networks: seq<Row>, links: seq<Link>)
      ensures this.networks == networks && this.links == links
    {
      this.networks, this.links := networks, links;
    }

    /** `enrichNetworkStatsFromLinks` */
    method Enrich()
      requires DistinctRows(networks) && NetworkKeys(networks)
      modifies this`networks
      ensures IsEnriched(old(networks), links, networks)
    {
      hide Filling, IsEnriched, SortedRows, Enriched;
      var rows := networks;
      var byNet: map<Key, nat> := IndexRows(rows);
      FillingStarts(networks, byNet);
      for j := 0 to |links|
        invariant networks == old(networks) && Filling(old(networks), links[..j], rows, byNet)
      {
        var l := links[j];
        var k := [l.network];
        FillingGoesOn(old(networks), links[..j], l, rows, byNet);
        assert links[..j] + [l] == links[..j + 1];
        if k !in byNet {
          byNet := byNet[k := |rows|];
          rows := rows + [Row(k, map[])];
        }
        var i := byNet[k];
        rows := rows[i := Row(k, Enriched(rows[i].counts, l.linkType, l.counts))];
      }
      assert links[..|links|] == links;
      FillingEnds(old(networks), links, rows, byNet);
      var sorted := SortRows(rows);
      networks := sorted;
    }
  }
}
