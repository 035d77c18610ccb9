/**
 The time-travel diff (`_generate_checkpoint_diff`, `_generate_checkpoint_diffs_batch` in
 app/services/client_comparison_service.py): client records at a checkpoint against those at a later
 time, one checkpoint at a time or all of them with one query and a binary search.
 */
module CheckpointDiff {
  import opened Wrappers
  import opened Seqs
  import opened ClientComparison

  /** A row of the client record table; markers belong to no client, written 0. */
  datatype Row = Row(client: int, mac: Option<string>, at: int, data: Side)

  const MARKER := "__MARKER__"

  /** Snapshot markers and rows without address are skipped; `upper` is the case folding of MAC addresses. */
  function MacOf(upper: string -> string, r: Row): Option<string> {
    if NonEmpty(r.mac) && upper(r.mac.value) != "" && upper(r.mac.value) != MARKER then Some(upper(r.mac.value))
    else None
  }

  predicate Names(upper: string -> string, r: Row, mac: string) {
    MacOf(upper, r) == Some(mac)
  }

  function Of(upper: string -> string, mac: string): Row -> bool {
    (r: Row) => Names(upper, r, mac)
  }

  function Until(t: int): Row -> bool {
    (r: Row) => r.at <= t
  }

  function Since(t: Option<int>): Row -> bool {
    (r: Row) => t.Some? ==> r.at <= t.value
  }

  /**
   The order of the query: per address, newest first.  Ties come in the one order the database
   uses for both queries.
   */
  ghost predicate NewestFirst(upper: string -> string, table: seq<Row>) {
    forall i, j, mac :: 0 <= i < j < |table| && Names(upper, table[i], mac) && Names(upper, table[j], mac) ==>
      table[j].at <= table[i].at
  }

  // ---- Specification ----

  function First(s: seq<Row>): Option<Row> {
    if s == [] then None else Some(s[0])
  }

  /** The first row of an address among the rows of a query. */
  function Newest(upper: string -> string, rows: seq<Row>, mac: string): Option<Row> {
    First(Filter(rows, Of(upper, mac)))
  }

  function Lookup(m: map<string, Row>, mac: string): Option<Row> {
    if mac in m then Some(m[mac]) else None
  }

  function SideOf(r: Option<Row>): Side {
    if r.Some? then r.value.data else ABSENT
  }

  function ComparisonOf(norm: Normalizers, mac: string, checkpoint: Option<Row>, current: Option<Row>): Comparison {
    var a, b := SideOf(checkpoint), CurrentSide(SideOf(current));
    Comparison(mac, a, b, Compare(norm, a, b))
  }

  /** The addresses with a row among those of a query. */
  function Macs(upper: string -> string, rows: seq<Row>): set<string> {
    set r | r in rows && MacOf(upper, r).Some? :: MacOf(upper, r).value
  }

  function CheckpointRows(table: seq<Row>, t: int): seq<Row> {
    Filter(table, Until(t))
  }

  function CurrentRows(table: seq<Row>, t: Option<int>): seq<Row> {
    Filter(table, Since(t))
  }

  /** The addresses compared: those of the MAC list, or those recorded if the list is empty. */
  function Compared(macList: set<string>, recorded: set<string>): set<string> {
    if macList != {} then macList else recorded
  }

  function Diff(norm: Normalizers, upper: string -> string, macs: set<string>, table: seq<Row>, checkpoint: int,
                current: Option<int>): map<string, Comparison> {
    map mac | mac in macs ::
      ComparisonOf(norm, mac, Newest(upper, CheckpointRows(table, checkpoint), mac),
        Newest(upper, CurrentRows(table, current), mac))
  }

  function SingleMacs(upper: string -> string, macList: set<string>, table: seq<Row>, checkpoint: int,
                      current: Option<int>): set<string> {
    Compared(macList, Macs(upper, CheckpointRows(table, checkpoint)) + Macs(upper, CurrentRows(table, current)))
  }

  /** What the one-at-a-time diff returns. */
  function Single(norm: Normalizers, upper: string -> string, macList: set<string>, table: seq<Row>,
                  checkpoint: int, current: Option<int>): map<string, Comparison> {
    Diff(norm, upper, SingleMacs(upper, macList, table, checkpoint, current), table, checkpoint, current)
  }

  // ---- When nothing was recorded in between ----

  /** Nothing was recorded of the address after the checkpoint and until now. */
  ghost predicate Quiet(upper: string -> string, table: seq<Row>, checkpoint: int, now: int, mac: string) {
    checkpoint <= now && forall r :: r in table && Names(upper, r, mac) ==> !(checkpoint < r.at <= now)
  }

  lemma QuietSameRecord(upper: string -> string, table: seq<Row>, checkpoint: int, now: int, mac: string)
    requires Quiet(upper, table, checkpoint, now, mac)
    ensures Newest(upper, CheckpointRows(table, checkpoint), mac) == Newest(upper, CurrentRows(table, Some(now)), mac)
  {
    var own := Filter(table, Of(upper, mac));
    FilterCommute(table, Until(checkpoint), Of(upper, mac));
    FilterCommute(table, Since(Some(now)), Of(upper, mac));
    forall r | r in own ensures Until(checkpoint)(r) == Since(Some(now))(r) { FilterMember(table, Of(upper, mac), r); }
    FilterSame(own, Until(checkpoint), Since(Some(now)));
  }

  /** The newest record of the address has data but no switch. */
  ghost predicate DataWithoutSwitch(upper: string -> string, table: seq<Row>, checkpoint: int, mac: string) {
    var newest := Newest(upper, CheckpointRows(table, checkpoint), mac);
    newest.Some? && newest.value.data.switch.None? && HasAnyData(newest.value.data)
  }

  /**
   When nothing was recorded of an address between checkpoint and now, the diff should report no
   change of it.  It reports one exactly if the record in force has data but no switch.
   */
  lemma QuietChangedIff(norm: Normalizers, upper: string -> string, macList: set<string>, table: seq<Row>,
                        checkpoint: int, now: int, mac: string)
    requires mac in SingleMacs(upper, macList, table, checkpoint, Some(now))
    requires Quiet(upper, table, checkpoint, now, mac)
    ensures Single(norm, upper, macList, table, checkpoint, Some(now))[mac].outcome.isChanged
      <==> DataWithoutSwitch(upper, table, checkpoint, mac)
  {
    QuietSameRecord(upper, table, checkpoint, now, mac);
    SelfComparison(norm, SideOf(Newest(upper, CheckpointRows(table, checkpoint), mac)));
  }

  // ---- Whose records are compared ----

  function Belongs(client: int): Row -> bool {
    (r: Row) => r.client == client
  }

  lemma FilterHead<T>(s: seq<T>, p: T -> bool)
    requires s != [] && p(s[0])
    ensures Filter(s, p) != [] && Filter(s, p)[0] == s[0]
  {
    assert s == [s[0]] + s[1..];
    FilterAppend([s[0]], s[1..], p);
    FilterOne(s[0], p);
  }

  /** The newest row of the address, if there is one, is a row of the client. */
  predicate ShowsClient(upper: string -> string, rows: seq<Row>, mac: string, client: int) {
    var newest := Newest(upper, rows, mac);
    newest.Some? ==> newest.value.client == client
  }

  lemma NewestIsOwnIff(upper: string -> string, rows: seq<Row>, mac: string, client: int)
    ensures Newest(upper, rows, mac) == Newest(upper, Filter(rows, Belongs(client)), mac) <==>
      ShowsClient(upper, rows, mac, client)
  {
    var named := Filter(rows, Of(upper, mac));
    FilterCommute(rows, Belongs(client), Of(upper, mac));
    var own := Filter(named, Belongs(client));
    if named == [] {
      assert own == [];
    } else if named[0].client == client {
      FilterHead(named, Belongs(client));
    } else if own != [] {
      FilterMember(named, Belongs(client), own[0]);
    }
  }

  /** The two records that the diff compares for an address. */
  function Sides(upper: string -> string, table: seq<Row>, checkpoint: int, current: Option<int>, mac: string):
    (Option<Row>, Option<Row>)
  {
    (Newest(upper, CheckpointRows(table, checkpoint), mac), Newest(upper, CurrentRows(table, current), mac))
  }

  /**
   The diff goes by address, not by client.  For a client it compares the records that a diff of the
   client's own rows would compare exactly if, on each side, the newest row of the address is the
   client's; the comparison is then the same.
   */
  lemma ComparesOwnIff(norm: Normalizers, upper: string -> string, macList: set<string>, table: seq<Row>,
                       checkpoint: int, current: Option<int>, mac: string, client: int)
    requires mac in SingleMacs(upper, macList, table, checkpoint, current)
    ensures var own := Filter(table, Belongs(client));
      && (Sides(upper, table, checkpoint, current, mac) == Sides(upper, own, checkpoint, current, mac) <==>
           && ShowsClient(upper, CheckpointRows(table, checkpoint), mac, client)
           && ShowsClient(upper, CurrentRows(table, current), mac, client))
      && (Sides(upper, table, checkpoint, current, mac) == Sides(upper, own, checkpoint, current, mac) ==>
           Single(norm, upper, macList, table, checkpoint, current)[mac]
             == Diff(norm, upper, {mac}, own, checkpoint, current)[mac])
  {
    NewestIsOwnIff(upper, CheckpointRows(table, checkpoint), mac, client);
    NewestIsOwnIff(upper, CurrentRows(table, current), mac, client);
    FilterCommute(table, Until(checkpoint), Belongs(client));
    FilterCommute(table, Since(current), Belongs(client));
  }

  /** In particular if no other client has a row with the address. */
  lemma UnsharedShowsClient(upper: string -> string, table: seq<Row>, checkpoint: int, current: Option<int>,
                            mac: string, client: int)
    requires forall r :: r in table && Names(upper, r, mac) ==> r.client == client
    ensures ShowsClient(upper, CheckpointRows(table, checkpoint), mac, client)
    ensures ShowsClient(upper, CurrentRows(table, current), mac, client)
  {
    OnlyClients(upper, table, Until(checkpoint), mac, client);
    OnlyClients(upper, table, Since(current), mac, client);
  }

  lemma OnlyClients(upper: string -> string, table: seq<Row>, p: Row -> bool, mac: string, client: int)
    requires forall r :: r in table && Names(upper, r, mac) ==> r.client == client
    ensures ShowsClient(upper, Filter(table, p), mac, client)
  {
    var named := Filter(Filter(table, p), Of(upper, mac));
    if named != [] {
      FilterMember(Filter(table, p), Of(upper, mac), named[0]);
      FilterMember(table, p, named[0]);
    }
  }

  /**
   Two clients with one address: the record of the first is compared with the later one of the second,
   although the first has a single record.
   */
  lemma SharedAddressMixes(norm: Normalizers, upper: string -> string, mac: string, a: Side, b: Side)
    requires MacOf(upper, Row(1, Some(mac), 0, a)) == Some(mac)
    ensures var table := [Row(2, Some(mac), 1, b), Row(1, Some(mac), 0, a)];
      && NewestFirst(upper, table)
      && Single(norm, upper, {mac}, table, 0, Some(1))[mac]
          == Comparison(mac, a, CurrentSide(b), Compare(norm, a, CurrentSide(b)))
      && Diff(norm, upper, {mac}, Filter(table, Belongs(1)), 0, Some(1))[mac]
        == Comparison(mac, a, CurrentSide(a), Compare(norm, a, CurrentSide(a)))
  {
    var first, second := Row(1, Some(mac), 0, a), Row(2, Some(mac), 1, b);
    PairOf(second, first, Until(0));
    PairOf(second, first, Since(Some(1)));
    PairOf(second, first, Belongs(1));
    PairOf(second, first, Of(upper, mac));
    FilterOne(first, Of(upper, mac));
    FilterOne(first, Until(0));
    FilterOne(first, Since(Some(1)));
    var table := [second, first];
    assert CheckpointRows(table, 0) == [first] && CurrentRows(table, Some(1)) == table;
    assert Newest(upper, [first], mac) == Some(first) && Newest(upper, table, mac) == Some(second);
    assert Filter(table, Belongs(1)) == [first];
    assert mac in SingleMacs(upper, {mac}, table, 0, Some(1));
  }

  lemma PairOf<T>(x: T, y: T, p: T -> bool)
    ensures Filter([x, y], p) == (if p(x) then [x] else []) + (if p(y) then [y] else [])
  {
    assert [x, y] == [x] + [y];
    FilterAppend([x], [y], p);
    FilterOne(x, p);
    FilterOne(y, p);
  }

  // ---- One checkpoint ----

  lemma NewestNext(upper: string -> string, rows: seq<Row>, i: nat, mac: string)
    requires i < |rows|
    ensures Newest(upper, rows[..i + 1], mac) ==
      var before := Newest(upper, rows[..i], mac);
      if before.Some? then before else if Names(upper, rows[i], mac) then Some(rows[i]) else None
  {
    TakeNext(rows, i);
    FilterAppend(rows[..i], [rows[i]], Of(upper, mac));
    FilterOne(rows[i], Of(upper, mac));
  }

  /** Keeps the first row of each address. */
  method FirstByMac(upper: string -> string, rows: seq<Row>) returns (byMac: map<string, Row>)
    ensures forall mac :: Lookup(byMac, mac) == Newest(upper, rows, mac)
  {
    byMac := map[];
    for i := 0 to |rows|
      invariant forall mac :: Lookup(byMac, mac) == Newest(upper, rows[..i], mac)
    {
      forall mac { NewestNext(upper, rows, i, mac); }
      var mac := MacOf(upper, rows[i]);
      if mac.Some? && mac.value !in byMac {
        byMac := byMac[mac.value := rows[i]];
      }
    }
    assert rows[..|rows|] == rows;
  }

  lemma RecordedMacs(upper: string -> string, rows: seq<Row>, byMac: map<string, Row>)
    requires forall mac :: Lookup(byMac, mac) == Newest(upper, rows, mac)
    ensures byMac.Keys == Macs(upper, rows)
  {
    forall mac ensures mac in byMac <==> mac in Macs(upper, rows) {
      assert Lookup(byMac, mac) == Newest(upper, rows, mac);
      if mac in byMac {
        FilterMember(rows, Of(upper, mac), Filter(rows, Of(upper, mac))[0]);
      } else if mac in Macs(upper, rows) {
        var r :| r in rows && MacOf(upper, r) == Some(mac);
        FilterMember(rows, Of(upper, mac), r);
      }
    }
  }

  /** Fills in and compares the two sides of one address. */
  method CompareMac(norm: Normalizers, mac: string, checkpoint: Option<Row>, current: Option<Row>)
    returns (comparison: Comparison)
    ensures comparison == ComparisonOf(norm, mac, checkpoint, current)
  {
    var row := new ClientComparisonRow(mac);
    if checkpoint.Some? {
      row.before := checkpoint.value.data;
    }
    if current.Some? && current.value.data.switch.Some? {
      row.after := current.value.data;
    }
    row.CompareRecords(norm);
    return row.Value();
  }

  /** The comparisons of all addresses; their order is that of a Python set and does not matter. */
  method CompareAll(norm: Normalizers, macs: set<string>, checkpoints: map<string, Row>, currents: map<string, Row>)
    returns (comparisons: map<string, Comparison>)
    ensures comparisons.Keys == macs
    ensures forall mac :: mac in macs ==>
      comparisons[mac] == ComparisonOf(norm, mac, Lookup(checkpoints, mac), Lookup(currents, mac))
  {
    comparisons := map[];
    var rest := macs;
    while rest != {}
      invariant rest <= macs && comparisons.Keys == macs - rest
      invariant forall mac :: mac in comparisons ==>
        comparisons[mac] == ComparisonOf(norm, mac, Lookup(checkpoints, mac), Lookup(currents, mac))
      decreases rest
    {
      var mac :| mac in rest;
      var comparison := CompareMac(norm, mac, Lookup(checkpoints, mac), Lookup(currents, mac));
      comparisons := comparisons[mac := comparison];
      rest := rest - {mac};
    }
  }

  /** Comparisons made from two dictionaries are the diff of the rows the dictionaries hold. */
  lemma ComparedIsDiff(norm: Normalizers, upper: string -> string, macs: set<string>, table: seq<Row>,
                       checkpoint: int, current: Option<int>,
                       checkpoints: map<string, Row>, currents: map<string, Row>, comparisons: map<string, Comparison>)
    requires forall mac :: Lookup(checkpoints, mac) == Newest(upper, CheckpointRows(table, checkpoint), mac)
    requires forall mac :: Lookup(currents, mac) == Newest(upper, CurrentRows(table, current), mac)
    requires comparisons.Keys == macs
    requires forall mac :: mac in macs ==>
      comparisons[mac] == ComparisonOf(norm, mac, Lookup(checkpoints, mac), Lookup(currents, mac))
    ensures comparisons == Diff(norm, upper, macs, table, checkpoint, current)
  {
  }

  /** `_generate_checkpoint_diff` */
  method GenerateCheckpointDiff(norm: Normalizers, upper: string -> string, macList: set<string>, table: seq<Row>,
                                checkpoint: int, current: Option<int>)
    returns (comparisons: map<string, Comparison>)
    ensures comparisons == Single(norm, upper, macList, table, checkpoint, current)
  {
    var checkpointByMac := FirstByMac(upper, CheckpointRows(table, checkpoint));
    var currentByMac := FirstByMac(upper, CurrentRows(table, current));
    RecordedMacs(upper, CheckpointRows(table, checkpoint), checkpointByMac);
    RecordedMacs(upper, CurrentRows(table, current), currentByMac);
    var macs := if macList != {} then macList else checkpointByMac.Keys + currentByMac.Keys;
    comparisons := CompareAll(norm, macs, checkpointByMac, currentByMac);
    ComparedIsDiff(norm, upper, macs, table, checkpoint, current, checkpointByMac, currentByMac, comparisons);
  }

  // ---- All checkpoints at once ----

  /** `bisect_right` of the Python standard library. */
  method BisectRight(times: seq<int>, t: int) returns (idx: nat)
    requires forall i, j :: 0 <= i < j < |times| ==> times[i] <= times[j]
    ensures idx <= |times|
    ensures forall i :: 0 <= i < idx ==> times[i] <= t
    ensures forall i :: idx <= i < |times| ==> t < times[i]
  {
    var lo, hi := 0, |times|;
    while lo < hi
      invariant 0 <= lo <= hi <= |times|
      invariant forall i :: 0 <= i < lo ==> times[i] <= t
      invariant forall i :: hi <= i < |times| ==> t < times[i]
    {
      var mid := (lo + hi) / 2;
      if t < times[mid] {
        hi := mid;
      } else {
        lo := mid + 1;
      }
    }
    idx := lo;
  }

  /** The rows of an address among those up to the last checkpoint, newest first. */
  function Descending(upper: string -> string, table: seq<Row>, last: int, mac: string): seq<Row> {
    Filter(CheckpointRows(table, last), Of(upper, mac))
  }

  function Reverse<T>(s: seq<T>): seq<T> {
    seq(|s|, i requires 0 <= i < |s| => s[|s| - 1 - i])
  }

  function Times(rows: seq<Row>): seq<int> {
    Map(rows, (r: Row) => r.at)
  }

  function NotNewer(): (Row, Row) -> bool {
    (a: Row, b: Row) => b.at <= a.at
  }

  ghost predicate Descends(s: seq<Row>) {
    forall i, j :: 0 <= i < j < |s| ==> NotNewer()(s[i], s[j])
  }

  lemma DescendingOrdered(upper: string -> string, table: seq<Row>, last: int, mac: string)
    requires NewestFirst(upper, table)
    ensures Descends(Descending(upper, table, last, mac))
  {
    NewestFirstOwn(upper, table, mac);
    FilterOrdered(Filter(table, Of(upper, mac)), Until(last), NotNewer());
    FilterCommute(table, Until(last), Of(upper, mac));
  }

  lemma {:induction false} NewestFirstOwn(upper: string -> string, table: seq<Row>, mac: string)
    requires NewestFirst(upper, table)
    ensures Descends(Filter(table, Of(upper, mac)))
  {
    if table != [] {
      var front, last := table[..|table| - 1], Last(table);
      NewestFirstOwn(upper, front, mac);
      var own := Filter(front, Of(upper, mac));
      forall i | 0 <= i < |own| && Names(upper, last, mac) ensures NotNewer()(own[i], last) {
        FilterMember(front, Of(upper, mac), own[i]);
        var k :| 0 <= k < |front| && front[k] == own[i];
        assert Names(upper, table[k], mac) && Names(upper, table[|table| - 1], mac);
      }
    }
  }

  /** The record taken for a checkpoint is the address's newest one not after it. */
  lemma NewestMeaning(upper: string -> string, table: seq<Row>, t: int, mac: string)
    requires NewestFirst(upper, table)
    ensures match Newest(upper, CheckpointRows(table, t), mac)
      case Some(r) => r in table && Names(upper, r, mac) && r.at <= t
        && forall other :: other in table && Names(upper, other, mac) && other.at <= t ==> other.at <= r.at
      case None => forall other :: other in table && Names(upper, other, mac) ==> t < other.at
  {
    var d := Descending(upper, table, t, mac);
    DescendingOrdered(upper, table, t, mac);
    forall r ensures r in d <==> r in table && Names(upper, r, mac) && r.at <= t {
      FilterMember(table, Until(t), r);
      FilterMember(CheckpointRows(table, t), Of(upper, mac), r);
    }
    if d != [] {
      forall other | other in d ensures other.at <= d[0].at {
        var i :| 0 <= i < |d| && d[i] == other;
        if i > 0 { assert NotNewer()(d[0], d[i]); }
      }
    }
  }

  /** What the binary search finds is the newest row of the checkpoint's own query. */
  lemma BisectFindsNewest(upper: string -> string, table: seq<Row>, last: int, mac: string, t: int, idx: nat)
    requires t <= last
    requires var times := Times(Reverse(Descending(upper, table, last, mac)));
      && idx <= |times| && (forall i :: 0 <= i < idx ==> times[i] <= t)
      && (forall i :: idx <= i < |times| ==> t < times[i])
    ensures var asc := Reverse(Descending(upper, table, last, mac));
      Newest(upper, CheckpointRows(table, t), mac) == if idx > 0 then Some(asc[idx - 1]) else None
  {
    var d := Descending(upper, table, last, mac);
    var asc := Reverse(d);
    var k := |d| - idx;
    forall i | 0 <= i < |d| ensures if i < k then !Until(t)(d[i]) else Until(t)(d[i]) {
      assert Times(asc)[|d| - 1 - i] == asc[|d| - 1 - i].at == d[i].at;
    }
    FilterFrom(d, Until(t), k);
    FilterCommute(CheckpointRows(table, last), Of(upper, mac), Until(t));
    FilterAbsorb(table, Until(last), Until(t));
  }

  function GroupAt(groups: map<string, seq<Row>>, mac: string): seq<Row> {
    if mac in groups then groups[mac] else []
  }

  ghost predicate Grouped(upper: string -> string, rows: seq<Row>, groups: map<string, seq<Row>>) {
    && (forall mac :: GroupAt(groups, mac) == Filter(rows, Of(upper, mac)))
    && (forall mac :: mac in groups ==> groups[mac] != [])
  }

  lemma GroupNext(upper: string -> string, rows: seq<Row>, i: nat, groups: map<string, seq<Row>>)
    requires i < |rows| && Grouped(upper, rows[..i], groups)
    ensures match MacOf(upper, rows[i])
      case None => Grouped(upper, rows[..i + 1], groups)
      case Some(mac) => Grouped(upper, rows[..i + 1], groups[mac := GroupAt(groups, mac) + [rows[i]]])
  {
    TakeNext(rows, i);
    forall mac ensures Filter(rows[..i + 1], Of(upper, mac))
      == Filter(rows[..i], Of(upper, mac)) + if Names(upper, rows[i], mac) then [rows[i]] else []
    {
      FilterAppend(rows[..i], [rows[i]], Of(upper, mac));
      FilterOne(rows[i], Of(upper, mac));
    }
  }

  /** The rows of a query grouped by address, in query order. */
  method GroupByMac(upper: string -> string, rows: seq<Row>) returns (groups: map<string, seq<Row>>)
    ensures Grouped(upper, rows, groups)
  {
    groups := map[];
    for i := 0 to |rows|
      invariant Grouped(upper, rows[..i], groups)
    {
      GroupNext(upper, rows, i, groups);
      var mac := MacOf(upper, rows[i]);
      if mac.Some? {
        groups := groups[mac.value := GroupAt(groups, mac.value) + [rows[i]]];
      }
    }
    assert rows[..|rows|] == rows;
  }

  /** Per address its rows up to the last checkpoint, oldest first, and their times. */
  ghost predicate Sorted(upper: string -> string, table: seq<Row>, last: int, records: map<string, seq<Row>>,
                         times: map<string, seq<int>>) {
    && records.Keys == times.Keys
    && (forall mac :: mac in records <==> Descending(upper, table, last, mac) != [])
    && forall mac :: mac in records ==>
      records[mac] == Reverse(Descending(upper, table, last, mac)) && times[mac] == Times(records[mac])
  }

  method Ascending(upper: string -> string, table: seq<Row>, last: int)
    returns (records: map<string, seq<Row>>, times: map<string, seq<int>>)
    ensures Sorted(upper, table, last, records, times)
  {
    var groups := GroupByMac(upper, CheckpointRows(table, last));
    records := map mac | mac in groups :: Reverse(groups[mac]);
    times := map mac | mac in groups :: Times(Reverse(groups[mac]));
    forall mac ensures mac in groups <==> Descending(upper, table, last, mac) != [] {
      assert GroupAt(groups, mac) == Descending(upper, table, last, mac);
    }
    forall mac | mac in groups ensures groups[mac] == Descending(upper, table, last, mac) {
      assert GroupAt(groups, mac) == groups[mac];
    }
  }

  /** The newest row of one address at one checkpoint. */
  method BisectMac(ghost upper: string -> string, ghost table: seq<Row>, ghost last: int, ghost mac: string,
                   rows: seq<Row>, times: seq<int>, t: int)
    returns (newest: Option<Row>)
    requires NewestFirst(upper, table) && t <= last
    requires rows == Reverse(Descending(upper, table, last, mac)) && times == Times(rows)
    ensures newest == Newest(upper, CheckpointRows(table, t), mac)
  {
    TimesOrdered(upper, table, last, mac);
    var idx := BisectRight(times, t);
    BisectFindsNewest(upper, table, last, mac, t, idx);
    newest := if idx > 0 then Some(rows[idx - 1]) else None;
  }

  /** The newest row of every address at one checkpoint, by binary search. */
  method BisectAll(ghost upper: string -> string, ghost table: seq<Row>, ghost last: int,
                   records: map<string, seq<Row>>, times: map<string, seq<int>>, t: int)
    returns (byMac: map<string, Row>)
    requires NewestFirst(upper, table) && t <= last
    requires Sorted(upper, table, last, records, times)
    ensures forall mac :: Lookup(byMac, mac) == Newest(upper, CheckpointRows(table, t), mac)
  {
    byMac := map[];
    var rest := records.Keys;
    while rest != {}
      invariant rest <= records.Keys && byMac.Keys <= records.Keys - rest
      invariant forall mac :: mac in records.Keys - rest ==>
        Lookup(byMac, mac) == Newest(upper, CheckpointRows(table, t), mac)
      decreases rest
    {
      var mac :| mac in rest;
      var newest := BisectMac(upper, table, last, mac, records[mac], times[mac], t);
      if newest.Some? {
        byMac := byMac[mac := newest.value];
      }
      rest := rest - {mac};
    }
    forall mac ensures Lookup(byMac, mac) == Newest(upper, CheckpointRows(table, t), mac) {
      if mac !in records { BisectFindsNewest(upper, table, last, mac, t, 0); }
    }
  }

  lemma TimesOrdered(upper: string -> string, table: seq<Row>, last: int, mac: string)
    requires NewestFirst(upper, table)
    ensures var times := Times(Reverse(Descending(upper, table, last, mac)));
      forall i, j :: 0 <= i < j < |times| ==> times[i] <= times[j]
  {
    DescendingOrdered(upper, table, last, mac);
    var d := Descending(upper, table, last, mac);
    forall i, j | 0 <= i < j < |d| ensures Times(Reverse(d))[i] <= Times(Reverse(d))[j] {
      assert NotNewer()(d[|d| - 1 - j], d[|d| - 1 - i]);
    }
  }

  function MaxUpTo(times: seq<int>, n: nat): (m: int)
    requires 0 < n <= |times|
    ensures exists i :: 0 <= i < n && times[i] == m
    ensures forall i :: 0 <= i < n ==> times[i] <= m
  {
    if n == 1 then times[0] else if times[n - 1] > MaxUpTo(times, n - 1) then times[n - 1] else MaxUpTo(times, n - 1)
  }

  function MaxOf(times: seq<int>): (m: int)
    requires times != []
    ensures m in times && forall t :: t in times ==> t <= m
  {
    MaxUpTo(times, |times|)
  }

  /** Addresses do not depend on the checkpoint here: all rows up to the last one count. */
  function BatchMacs(upper: string -> string, macList: set<string>, table: seq<Row>, last: int, current: int):
    set<string>
  {
    Compared(macList, Macs(upper, CheckpointRows(table, last)) + Macs(upper, CurrentRows(table, Some(current))))
  }

  /** `_generate_checkpoint_diffs_batch` */
  method GenerateCheckpointDiffsBatch(norm: Normalizers, upper: string -> string, macList: set<string>,
                                      table: seq<Row>, checkpoints: seq<int>, current: int)
    returns (results: map<int, map<string, Comparison>>)
    requires NewestFirst(upper, table)
    ensures forall t :: t in results <==> t in checkpoints
    ensures checkpoints != [] ==> forall t :: t in checkpoints ==>
      results[t] == Diff(norm, upper, BatchMacs(upper, macList, table, MaxOf(checkpoints), current), table, t,
        Some(current))
  {
    results := map[];
    if checkpoints == [] { return; }
    var currentByMac := FirstByMac(upper, CurrentRows(table, Some(current)));
    var last := MaxOf(checkpoints);
    var records, times := Ascending(upper, table, last);
    RecordedMacs(upper, CurrentRows(table, Some(current)), currentByMac);
    GroupedMacs(upper, table, last, records, times);
    var macs := if macList != {} then macList else records.Keys + currentByMac.Keys;
    for i := 0 to |checkpoints|
      invariant forall t :: t in results <==> t in checkpoints[..i]
      invariant forall t :: t in results ==> results[t] == Diff(norm, upper, macs, table, t, Some(current))
    {
      TakeNext(checkpoints, i);
      var t := checkpoints[i];
      assert t in checkpoints;
      var comparisons := DiffAt(norm, upper, macs, table, last, records, times, currentByMac, t, current);
      results := results[t := comparisons];
    }
    assert checkpoints[..|checkpoints|] == checkpoints;
  }

  method DiffAt(norm: Normalizers, ghost upper: string -> string, macs: set<string>, ghost table: seq<Row>,
                ghost last: int, records: map<string, seq<Row>>, times: map<string, seq<int>>,
                currentByMac: map<string, Row>, t: int, ghost current: int)
    returns (comparisons: map<string, Comparison>)
    requires NewestFirst(upper, table) && t <= last && Sorted(upper, table, last, records, times)
    requires forall mac :: Lookup(currentByMac, mac) == Newest(upper, CurrentRows(table, Some(current)), mac)
    ensures comparisons == Diff(norm, upper, macs, table, t, Some(current))
  {
    var byMac := BisectAll(upper, table, last, records, times, t);
    comparisons := CompareAll(norm, macs, byMac, currentByMac);
    ComparedIsDiff(norm, upper, macs, table, t, Some(current), byMac, currentByMac, comparisons);
  }

  lemma GroupedMacs(upper: string -> string, table: seq<Row>, last: int, records: map<string, seq<Row>>,
                    times: map<string, seq<int>>)
    requires Sorted(upper, table, last, records, times)
    ensures records.Keys == Macs(upper, CheckpointRows(table, last))
  {
    var rows := CheckpointRows(table, last);
    forall mac ensures mac in records <==> mac in Macs(upper, rows) {
      if mac in records {
        FilterMember(rows, Of(upper, mac), Filter(rows, Of(upper, mac))[0]);
      } else if mac in Macs(upper, rows) {
        var r :| r in rows && MacOf(upper, r) == Some(mac);
        FilterMember(rows, Of(upper, mac), r);
      }
    }
  }

  // ---- The fast form against the simple one ----

  /** The batch gives at a checkpoint what the one-at-a-time diff gives. */
  ghost predicate Agrees(norm: Normalizers, upper: string -> string, macList: set<string>, table: seq<Row>,
                         checkpoints: seq<int>, current: int, t: int)
    requires checkpoints != []
  {
    Diff(norm, upper, BatchMacs(upper, macList, table, MaxOf(checkpoints), current), table, t, Some(current))
      == Single(norm, upper, macList, table, t, Some(current))
  }

  /** Whether every address recorded up to the last checkpoint is also recorded at `t` or by now. */
  ghost predicate NothingBetween(upper: string -> string, table: seq<Row>, last: int, current: int, t: int) {
    Macs(upper, CheckpointRows(table, last)) <= Macs(upper, CheckpointRows(table, t))
      + Macs(upper, CurrentRows(table, Some(current)))
  }

  lemma MacsGrow(upper: string -> string, table: seq<Row>, t: int, last: int)
    requires t <= last
    ensures Macs(upper, CheckpointRows(table, t)) <= Macs(upper, CheckpointRows(table, last))
    ensures Macs(upper, CheckpointRows(table, t)) == Macs(upper, CurrentRows(table, Some(t)))
  {
    FilterSame(table, Until(t), Since(Some(t)));
    forall r | r in CheckpointRows(table, t) ensures r in CheckpointRows(table, last) {
      FilterMember(table, Until(t), r);
      FilterMember(table, Until(last), r);
    }
  }

  /** For each input: the batch agrees exactly with a MAC list, or when no address appears in between only. */
  lemma BatchAgreesIff(norm: Normalizers, upper: string -> string, macList: set<string>, table: seq<Row>,
                       checkpoints: seq<int>, current: int, t: int)
    requires t in checkpoints
    ensures Agrees(norm, upper, macList, table, checkpoints, current, t) <==>
      macList != {} || NothingBetween(upper, table, MaxOf(checkpoints), current, t)
  {
    var last := MaxOf(checkpoints);
    MacsGrow(upper, table, t, last);
    var fast := Diff(norm, upper, BatchMacs(upper, macList, table, last, current), table, t, Some(current));
    var simple := Single(norm, upper, macList, table, t, Some(current));
    assert fast.Keys == BatchMacs(upper, macList, table, last, current);
    assert simple.Keys == SingleMacs(upper, macList, table, t, Some(current));
  }

  /** The condition of the caller: a MAC list, or no checkpoint after now, or a single checkpoint time. */
  ghost predicate Safe(macList: set<string>, checkpoints: seq<int>, current: int)
    requires checkpoints != []
  {
    macList != {} || MaxOf(checkpoints) <= current || forall t :: t in checkpoints ==> t == checkpoints[0]
  }

  /** A row of a new address at the last checkpoint. */
  function OneRow(mac: string, at: int): seq<Row> {
    [Row(0, Some(mac), at, ABSENT)]
  }

  /** Over all tables the batch equals the one-at-a-time diff exactly when the call is safe. */
  lemma BatchEqualsSingleIff(norm: Normalizers, upper: string -> string, macList: set<string>,
                             checkpoints: seq<int>, current: int, mac: string)
    requires checkpoints != [] && mac != "" && upper(mac) != "" && upper(mac) != MARKER
    ensures Safe(macList, checkpoints, current) <==>
      forall table, t :: NewestFirst(upper, table) && t in checkpoints ==>
        Agrees(norm, upper, macList, table, checkpoints, current, t)
  {
    var last := MaxOf(checkpoints);
    if Safe(macList, checkpoints, current) {
      forall table, t | NewestFirst(upper, table) && t in checkpoints
        ensures Agrees(norm, upper, macList, table, checkpoints, current, t)
      {
        SafeAgrees(norm, upper, macList, table, checkpoints, current, t);
      }
    } else {
      var t :| t in checkpoints && t != checkpoints[0];
      var early := if t < last then t else checkpoints[0];
      UnsafeDisagrees(norm, upper, checkpoints, current, early, mac);
      assert NewestFirst(upper, OneRow(mac, last));
    }
  }

  lemma SafeAgrees(norm: Normalizers, upper: string -> string, macList: set<string>, table: seq<Row>,
                   checkpoints: seq<int>, current: int, t: int)
    requires t in checkpoints && Safe(macList, checkpoints, current)
    ensures Agrees(norm, upper, macList, table, checkpoints, current, t)
  {
    var last := MaxOf(checkpoints);
    if last <= current { MacsGrow(upper, table, last, current); MacsGrow(upper, table, current, current); }
    BatchAgreesIff(norm, upper, macList, table, checkpoints, current, t);
  }

  lemma UnsafeDisagrees(norm: Normalizers, upper: string -> string, checkpoints: seq<int>, current: int,
                        early: int, mac: string)
    requires early in checkpoints && early < MaxOf(checkpoints) && current < MaxOf(checkpoints)
    requires mac != "" && upper(mac) != "" && upper(mac) != MARKER
    ensures !Agrees(norm, upper, {}, OneRow(mac, MaxOf(checkpoints)), checkpoints, current, early)
  {
    var last := MaxOf(checkpoints);
    var row := Row(0, Some(mac), last, ABSENT);
    FilterOne(row, Until(last));
    FilterOne(row, Until(early));
    FilterOne(row, Since(Some(current)));
    assert MacOf(upper, row) == Some(upper(mac)) && row in [row];
    assert upper(mac) in Macs(upper, [row]);
    BatchAgreesIff(norm, upper, {}, OneRow(mac, last), checkpoints, current, early);
  }

  // ---- What a diff compares, in plain terms ----

  /** A row that names the address in upper case; markers and empty addresses name none. */
  predicate HasAddress(upper: string -> string, r: Row, mac: string) {
    r.mac.Some? && r.mac.value != "" && mac == upper(r.mac.value) && mac != "" && mac != "__MARKER__"
  }

  lemma NamesIffAddress(upper: string -> string, r: Row, mac: string)
    ensures Names(upper, r, mac) <==> HasAddress(upper, r, mac)
  {
  }

  /** A row of the address that the time limit admits. */
  predicate Eligible(upper: string -> string, limit: Option<int>, mac: string, r: Row) {
    HasAddress(upper, r, mac) && (limit.Some? ==> r.at <= limit.value)
  }

  /** A newest one of them, or None if there is none. */
  ghost predicate IsNewest(upper: string -> string, table: seq<Row>, limit: Option<int>, mac: string, r: Option<Row>) {
    match r
    case Some(newest) =>
      && newest in table && Eligible(upper, limit, mac, newest)
      && forall other :: other in table && Eligible(upper, limit, mac, other) ==> other.at <= newest.at
    case None => forall other :: other in table ==> !Eligible(upper, limit, mac, other)
  }

  lemma OwnIn(upper: string -> string, table: seq<Row>, p: Row -> bool, mac: string, r: Row)
    ensures r in Filter(Filter(table, p), Of(upper, mac)) <==> r in table && p(r) && HasAddress(upper, r, mac)
  {
    FilterMember(Filter(table, p), Of(upper, mac), r);
    FilterMember(table, p, r);
    NamesIffAddress(upper, r, mac);
  }

  lemma CurrentIsNewest(upper: string -> string, table: seq<Row>, limit: Option<int>, mac: string)
    requires NewestFirst(upper, table)
    ensures IsNewest(upper, table, limit, mac, Newest(upper, CurrentRows(table, limit), mac))
  {
    var own := Filter(CurrentRows(table, limit), Of(upper, mac));
    forall r ensures r in own <==> r in table && Eligible(upper, limit, mac, r) {
      OwnIn(upper, table, Since(limit), mac, r);
    }
    NewestFirstOwn(upper, table, mac);
    FilterOrdered(Filter(table, Of(upper, mac)), Since(limit), NotNewer());
    FilterCommute(table, Since(limit), Of(upper, mac));
    if own != [] {
      assert own[0] in own;
      forall other | other in own ensures other.at <= own[0].at {
        var i :| 0 <= i < |own| && own[i] == other;
        if i > 0 { assert NotNewer()(own[0], own[i]); }
      }
    }
  }

  lemma CheckpointIsNewest(upper: string -> string, table: seq<Row>, t: int, mac: string)
    requires NewestFirst(upper, table)
    ensures IsNewest(upper, table, Some(t), mac, Newest(upper, CheckpointRows(table, t), mac))
  {
    FilterSame(table, Until(t), Since(Some(t)));
    CurrentIsNewest(upper, table, Some(t), mac);
  }

  /** The comparison of two records, the current one only if it has a switch. */
  ghost predicate Compares(norm: Normalizers, mac: string, a: Option<Row>, b: Option<Row>, c: Comparison) {
    && c.mac == mac
    && c.before == (if a.Some? then a.value.data else ABSENT)
    && c.after == (if b.Some? && b.value.data.switch.Some? then b.value.data else ABSENT)
    && c.outcome == Compare(norm, c.before, c.after)
  }

  /** The comparison of one address: its newest record at the checkpoint with its newest current one. */
  ghost predicate ComparesNewest(norm: Normalizers, upper: string -> string, table: seq<Row>, checkpoint: int,
                                 current: Option<int>, mac: string, c: Comparison) {
    exists a, b :: IsNewest(upper, table, Some(checkpoint), mac, a) && IsNewest(upper, table, current, mac, b)
                   && Compares(norm, mac, a, b, c)
  }

  /** Which addresses a diff is about: those of the MAC list, or without one those recorded by either time. */
  ghost predicate IsCompared(upper: string -> string, macList: set<string>, table: seq<Row>, checkpoint: int,
                             current: Option<int>, mac: string) {
    if macList != {} then mac in macList
    else exists r :: r in table && (Eligible(upper, Some(checkpoint), mac, r) || Eligible(upper, current, mac, r))
  }

  lemma MacsIff(upper: string -> string, rows: seq<Row>, mac: string)
    ensures mac in Macs(upper, rows) <==> exists r :: r in rows && HasAddress(upper, r, mac)
  {
    if mac in Macs(upper, rows) {
      var r :| r in rows && MacOf(upper, r) == Some(mac);
      NamesIffAddress(upper, r, mac);
    }
    if r :| r in rows && HasAddress(upper, r, mac) { NamesIffAddress(upper, r, mac); }
  }

  lemma MacsWithin(upper: string -> string, table: seq<Row>, limit: Option<int>, mac: string)
    ensures mac in Macs(upper, Filter(table, Since(limit))) <==>
      exists r :: r in table && Eligible(upper, limit, mac, r)
  {
    MacsIff(upper, Filter(table, Since(limit)), mac);
    if r :| r in Filter(table, Since(limit)) && HasAddress(upper, r, mac) {
      FilterMember(table, Since(limit), r);
      assert Eligible(upper, limit, mac, r);
    }
    if r :| r in table && Eligible(upper, limit, mac, r) { FilterMember(table, Since(limit), r); }
  }

  lemma ComparedIff(upper: string -> string, macList: set<string>, table: seq<Row>, checkpoint: int,
                    current: Option<int>, mac: string)
    ensures mac in SingleMacs(upper, macList, table, checkpoint, current) <==>
      IsCompared(upper, macList, table, checkpoint, current, mac)
  {
    FilterSame(table, Until(checkpoint), Since(Some(checkpoint)));
    MacsWithin(upper, table, Some(checkpoint), mac);
    MacsWithin(upper, table, current, mac);
  }

  lemma ComparisonTold(norm: Normalizers, mac: string, a: Option<Row>, b: Option<Row>)
    ensures Compares(norm, mac, a, b, ComparisonOf(norm, mac, a, b))
  {
  }

  /** The diff of a checkpoint: for exactly the compared addresses, the comparison of their newest records. */
  lemma SingleMeaning(norm: Normalizers, upper: string -> string, macList: set<string>, table: seq<Row>,
                      checkpoint: int, current: Option<int>, mac: string)
    requires NewestFirst(upper, table)
    ensures var d := Single(norm, upper, macList, table, checkpoint, current);
      && (mac in d <==> IsCompared(upper, macList, table, checkpoint, current, mac))
      && (mac in d ==> ComparesNewest(norm, upper, table, checkpoint, current, mac, d[mac]))
  {
    ComparedIff(upper, macList, table, checkpoint, current, mac);
    CheckpointIsNewest(upper, table, checkpoint, mac);
    CurrentIsNewest(upper, table, current, mac);
    ComparisonTold(norm, mac, Newest(upper, CheckpointRows(table, checkpoint), mac),
      Newest(upper, CurrentRows(table, current), mac));
  }
}
