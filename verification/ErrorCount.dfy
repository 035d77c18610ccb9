/**
 The CRC-growth indicator (app/indicators/error_count.py) as a reader of the change-point store:
 each device is judged on its newest change point and the one before it.
 */
module ErrorCount {
  import opened Wrappers
  import opened Seqs
  import opened TypedStore
  import opened StoreRefinement
  import opened ChangePoints

  const ERROR_COUNT := "get_error_count"
  const MAX_PASSES := 10

  datatype Counter = Counter(iface: string, crc: int)

  datatype Growth = Growth(iface: string, delta: int, prevCrc: int, crc: int)

  datatype Verdict =
    | CollectionFailed
    | NeverCollected
    | NoErrors
    | NoHistory
    | NotGrowing
    | Grew(growth: seq<Growth>)

  predicate Passes(v: Verdict) {
    v.NoErrors? || v.NoHistory? || v.NotGrowing?
  }

  datatype Entry = Entry(device: string, verdict: Verdict)

  datatype Evaluation = Evaluation(total: nat, passCount: nat, failCount: int, failures: seq<Entry>, passes: seq<Entry>)

  // ---- Specification ----

  /** Interface to counter; a later row of the same interface replaces an earlier one. */
  function Counters(rows: seq<Counter>): map<string, int> {
    if rows == [] then map[] else Counters(Front(rows))[Last(rows).iface := Last(rows).crc]
  }

  function GrowthOf(prev: map<string, int>, row: Counter): seq<Growth> {
    if row.iface in prev && row.crc - prev[row.iface] > 0 then
      [Growth(row.iface, row.crc - prev[row.iface], prev[row.iface], row.crc)]
    else []
  }

  function Growths(prev: map<string, int>, rows: seq<Counter>): seq<Growth> {
    if rows == [] then [] else Growths(prev, Front(rows)) + GrowthOf(prev, Last(rows))
  }

  /** The verdict on two neighbouring change points of a device. */
  function Judge(current: seq<Counter>, prev: seq<Counter>, failed: bool, collected: bool): Verdict {
    if current == [] then
      if failed then CollectionFailed else if collected then NoErrors else NeverCollected
    else if prev == [] then NoHistory
    else
      var growth := Growths(Counters(prev), current);
      if growth == [] then NotGrowing else Grew(growth)
  }

  function DeviceKey(maintenance: string, host: string): Key {
    Key(maintenance, ERROR_COUNT, host)
  }

  /** The rows of the second-newest batch of the key, if there are two. */
  function PreviousRows(db: DB<Counter>, key: Key): seq<Counter> {
    var own := BatchesOf(db, key);
    if |own| < 2 then [] else Content(db, FromEnd(own, 1))
  }

  function VerdictOn(db: DB<Counter>, maintenance: string, host: string): Verdict {
    var key := DeviceKey(maintenance, host);
    Judge(LatestOf(db, key), PreviousRows(db, key), key in db.errors, key in db.latest)
  }

  function Passing(db: DB<Counter>, maintenance: string): string -> bool {
    (host: string) => Passes(VerdictOn(db, maintenance, host))
  }

  function Failing(db: DB<Counter>, maintenance: string): string -> bool {
    (host: string) => !Passes(VerdictOn(db, maintenance, host))
  }

  function Entries(db: DB<Counter>, maintenance: string, hosts: seq<string>): seq<Entry> {
    Map(hosts, (host: string) => Entry(host, VerdictOn(db, maintenance, host)))
  }

  function UpTo<T>(s: seq<T>, n: nat): seq<T> {
    if |s| <= n then s else s[..n]
  }

  // ---- What the code computes ----

  function RowsAt(groups: map<string, seq<Counter>>, host: string): seq<Counter> {
    if host in groups then groups[host] else []
  }

  function CountersAt(groups: map<string, map<string, int>>, host: string): map<string, int> {
    if host in groups then groups[host] else map[]
  }

  /** The latest rows, grouped by device; devices outside the list are dropped. */
  method GroupRows(rows: seq<Record<Counter>>, active: set<string>) returns (groups: map<string, seq<Counter>>)
    ensures groups.Keys <= active
    ensures forall host :: host in active ==> RowsAt(groups, host) == Data(Filter(rows, OfHost(host)))
  {
    groups := map[];
    for i := 0 to |rows|
      invariant groups.Keys <= active
      invariant forall host :: host in active ==> RowsAt(groups, host) == Data(Filter(rows[..i], OfHost(host)))
    {
      var r := rows[i];
      TakeNext(rows, i);
      forall host | host in active
        ensures Data(Filter(rows[..i + 1], OfHost(host)))
          == Data(Filter(rows[..i], OfHost(host))) + if r.host == host then [r.data] else []
      {
        FilterAppend(rows[..i], [r], OfHost(host));
        FilterOne(r, OfHost(host));
      }
      if r.host in active {
        groups := groups[r.host := RowsAt(groups, r.host) + [r.data]];
      }
    }
    assert rows[..|rows|] == rows;
  }

  /** Per device its second-newest batch. */
  function PreviousBatchIds(db: DB<Counter>, maintenance: string, hosts: set<string>): map<string, nat> {
    map host | host in hosts && |BatchesOf(db, DeviceKey(maintenance, host))| >= 2
      :: (var own := BatchesOf(db, DeviceKey(maintenance, host)); FromEnd(own, 1).id)
  }

  lemma PreviousBatchIdsDiffer(db: DB<Counter>, maintenance: string, hosts: set<string>, a: string, b: string)
    requires BatchTable(db)
    requires var ids := PreviousBatchIds(db, maintenance, hosts); a in ids && b in ids && ids[a] == ids[b]
    ensures a == b
  {
    var ownA, ownB := BatchesOf(db, DeviceKey(maintenance, a)), BatchesOf(db, DeviceKey(maintenance, b));
    BatchOfKey(db, DeviceKey(maintenance, a), FromEnd(ownA, 1));
    BatchOfKey(db, DeviceKey(maintenance, b), FromEnd(ownB, 1));
    SameBatch(db, FromEnd(ownA, 1), FromEnd(ownB, 1));
  }

  lemma PreviousRowsSelected(db: DB<Counter>, maintenance: string, hosts: set<string>, host: string)
    requires host in PreviousBatchIds(db, maintenance, hosts)
    ensures var idOf := PreviousBatchIds(db, maintenance, hosts);
      Data(Filter(Filter(db.records, InBatches(idOf.Values)), OfBatch(idOf[host])))
        == PreviousRows(db, DeviceKey(maintenance, host))
  {
    var idOf := PreviousBatchIds(db, maintenance, hosts);
    assert idOf[host] in idOf.Values;
    FilterAbsorb(db.records, InBatches<Counter>(idOf.Values), OfBatch<Counter>(idOf[host]));
  }

  /** `_get_previous_batches`: two queries for all devices at once, then grouping. */
  method GetPreviousBatches(db: DB<Counter>, maintenance: string, hosts: set<string>)
    returns (result: map<string, map<string, int>>)
    requires BatchTable(db)
    ensures forall host :: host in hosts ==>
      CountersAt(result, host) == Counters(PreviousRows(db, DeviceKey(maintenance, host)))
  {
    var idOf := PreviousBatchIds(db, maintenance, hosts);
    var hostOf := Inverse(db, maintenance, hosts);
    result := GroupCounters(Filter(db.records, InBatches(idOf.Values)), idOf, hostOf);
    forall host | host in hosts
      ensures CountersAt(result, host) == Counters(PreviousRows(db, DeviceKey(maintenance, host)))
    {
      if host in idOf { PreviousRowsSelected(db, maintenance, hosts, host); }
    }
  }

  /** `batch_to_host`: no two devices share a batch. */
  method Inverse(db: DB<Counter>, maintenance: string, hosts: set<string>) returns (hostOf: map<nat, string>)
    requires BatchTable(db)
    ensures var idOf := PreviousBatchIds(db, maintenance, hosts);
      && (forall host :: host in idOf ==> idOf[host] in hostOf && hostOf[idOf[host]] == host)
      && (forall id :: id in hostOf ==> hostOf[id] in idOf && idOf[hostOf[id]] == id)
  {
    var idOf := PreviousBatchIds(db, maintenance, hosts);
    forall a, b | a in idOf && b in idOf && idOf[a] == idOf[b] ensures a == b {
      PreviousBatchIdsDiffer(db, maintenance, hosts, a, b);
    }
    hostOf := map host | host in idOf :: idOf[host] := host;
  }

  method GroupCounters(rows: seq<Record<Counter>>, idOf: map<string, nat>, hostOf: map<nat, string>)
    returns (result: map<string, map<string, int>>)
    requires forall host :: host in idOf ==> idOf[host] in hostOf && hostOf[idOf[host]] == host
    requires forall id :: id in hostOf ==> hostOf[id] in idOf && idOf[hostOf[id]] == id
    ensures result.Keys <= idOf.Keys
    ensures forall host :: host in idOf ==>
      CountersAt(result, host) == Counters(Data(Filter(rows, OfBatch(idOf[host]))))
  {
    result := map[];
    for i := 0 to |rows|
      invariant result.Keys <= idOf.Keys
      invariant forall host :: host in idOf ==>
        CountersAt(result, host) == Counters(Data(Filter(rows[..i], OfBatch(idOf[host]))))
    {
      var r := rows[i];
      TakeNext(rows, i);
      forall host | host in idOf ensures CountersAfter(rows[..i], r, idOf[host]) {
        NextCounters(rows[..i], r, idOf[host]);
      }
      if r.batchId in hostOf {
        var host := hostOf[r.batchId];
        result := result[host := CountersAt(result, host)[r.data.iface := r.data.crc]];
      }
    }
    assert rows[..|rows|] == rows;
  }

  ghost predicate CountersAfter(rows: seq<Record<Counter>>, r: Record<Counter>, id: nat) {
    var before := Counters(Data(Filter(rows, OfBatch<Counter>(id))));
    Counters(Data(Filter(rows + [r], OfBatch<Counter>(id))))
      == if r.batchId == id then before[r.data.iface := r.data.crc] else before
  }

  lemma NextData(rows: seq<Record<Counter>>, r: Record<Counter>)
    ensures Data(Filter(rows + [r], OfBatch<Counter>(r.batchId)))
      == Data(Filter(rows, OfBatch<Counter>(r.batchId))) + [r.data]
  {
    FilterAppend(rows, [r], OfBatch<Counter>(r.batchId));
    FilterOne(r, OfBatch<Counter>(r.batchId));
  }

  lemma SameData(rows: seq<Record<Counter>>, r: Record<Counter>, id: nat)
    requires r.batchId != id
    ensures Filter(rows + [r], OfBatch<Counter>(id)) == Filter(rows, OfBatch<Counter>(id))
  {
    FilterAppend(rows, [r], OfBatch<Counter>(id));
    FilterOne(r, OfBatch<Counter>(id));
  }

  lemma NextCounters(rows: seq<Record<Counter>>, r: Record<Counter>, id: nat)
    ensures CountersAfter(rows, r, id)
  {
    if r.batchId == id {
      NextData(rows, r);
      var before := Data(Filter(rows, OfBatch<Counter>(id)));
      assert Front(before + [r.data]) == before;
    } else {
      SameData(rows, r, id);
    }
  }

  lemma NoCounters(rows: seq<Counter>)
    ensures rows == [] <==> Counters(rows) == map[]
  {
    if rows != [] { assert Last(rows).iface in Counters(rows); }
  }

  /** The verdict on one device; `prevRows` are the rows `prev` was built from. */
  method JudgeDevice(current: seq<Counter>, prev: map<string, int>, ghost prevRows: seq<Counter>, failed: bool,
                     collected: bool)
    returns (verdict: Verdict)
    requires prev == Counters(prevRows)
    ensures verdict == Judge(current, prevRows, failed, collected)
  {
    NoCounters(prevRows);
    if current == [] {
      return if failed then CollectionFailed else if collected then NoErrors else NeverCollected;
    }
    if prev == map[] { return NoHistory; }
    var growing := [];
    for i := 0 to |current|
      invariant growing == Growths(prev, current[..i])
    {
      assert Front(current[..i + 1]) == current[..i];
      var row := current[i];
      if row.iface in prev {
        var delta := row.crc - prev[row.iface];
        if delta > 0 {
          growing := growing + [Growth(row.iface, delta, prev[row.iface], row.crc)];
        }
      }
    }
    assert current[..|current|] == current;
    verdict := if growing != [] then Grew(growing) else NotGrowing;
  }

  /** The tallies after the given devices: one failure entry per failed device, in device order. */
  ghost predicate Tallied(db: DB<Counter>, maintenance: string, hosts: seq<string>, passCount: nat,
                          failures: seq<Entry>, passes: seq<Entry>) {
    && passCount == |Filter(hosts, Passing(db, maintenance))|
    && passCount + |failures| == |hosts|
    && failures == Entries(db, maintenance, Filter(hosts, Failing(db, maintenance)))
    && passes == UpTo(Entries(db, maintenance, Filter(hosts, Passing(db, maintenance))), 10)
    && |passes| <= 10
  }

  lemma EntryAdded(db: DB<Counter>, maintenance: string, hosts: seq<string>, host: string, p: string -> bool)
    requires p(host)
    ensures |Filter(hosts + [host], p)| == |Filter(hosts, p)| + 1
    ensures Entries(db, maintenance, Filter(hosts + [host], p))
      == Entries(db, maintenance, Filter(hosts, p)) + [Entry(host, VerdictOn(db, maintenance, host))]
  {
    FilterAppend(hosts, [host], p);
    FilterOne(host, p);
  }

  lemma EntrySkipped(hosts: seq<string>, host: string, p: string -> bool)
    requires !p(host)
    ensures Filter(hosts + [host], p) == Filter(hosts, p)
  {
    FilterAppend(hosts, [host], p);
    FilterOne(host, p);
  }

  lemma UpToNext<T>(s: seq<T>, x: T, n: nat)
    ensures UpTo(UpTo(s, n) + [x], n) == UpTo(s + [x], n)
  {
  }

  lemma TallyPass(db: DB<Counter>, maintenance: string, hosts: seq<string>, passCount: nat, failures: seq<Entry>,
                  passes: seq<Entry>, host: string)
    requires Tallied(db, maintenance, hosts, passCount, failures, passes) && Passes(VerdictOn(db, maintenance, host))
    ensures Tallied(db, maintenance, hosts + [host], passCount + 1, failures,
                    UpTo(passes + [Entry(host, VerdictOn(db, maintenance, host))], MAX_PASSES))
  {
    EntrySkipped(hosts, host, Failing(db, maintenance));
    EntryAdded(db, maintenance, hosts, host, Passing(db, maintenance));
    UpToNext(Entries(db, maintenance, Filter(hosts, Passing(db, maintenance))),
      Entry(host, VerdictOn(db, maintenance, host)), MAX_PASSES);
  }

  lemma TallyFail(db: DB<Counter>, maintenance: string, hosts: seq<string>, passCount: nat, failures: seq<Entry>,
                  passes: seq<Entry>, host: string)
    requires Tallied(db, maintenance, hosts, passCount, failures, passes) && !Passes(VerdictOn(db, maintenance, host))
    ensures Tallied(db, maintenance, hosts + [host], passCount,
                    failures + [Entry(host, VerdictOn(db, maintenance, host))], passes)
  {
    EntryAdded(db, maintenance, hosts, host, Failing(db, maintenance));
    EntrySkipped(hosts, host, Passing(db, maintenance));
  }

  /**
   `evaluate`: the counts add up, there is one failure entry per failed device and they come in the
   order of the device list; passes are listed up to the display limit.
   */
  method Evaluate(db: DB<Counter>, maintenance: string, hostnames: seq<string>) returns (r: Evaluation)
    requires BatchTable(db)
    ensures r.total == |hostnames| && r.passCount + r.failCount == r.total && |r.failures| == r.failCount
    ensures Tallied(db, maintenance, hostnames, r.passCount, r.failures, r.passes)
  {
    var active := set host | host in hostnames;
    var current, prev := LoadRows(db, maintenance, active);
    var failures, passes, passCount := [], [], 0;
    for i := 0 to |hostnames|
      invariant Tallied(db, maintenance, hostnames[..i], passCount, failures, passes)
    {
      TakeNext(hostnames, i);
      var verdict := DeviceVerdict(db, maintenance, active, current, prev, hostnames[i]);
      passCount, failures, passes :=
        Record(db, maintenance, hostnames[..i], passCount, failures, passes, hostnames[i], verdict);
    }
    assert hostnames[..|hostnames|] == hostnames;
    r := Evaluation(|hostnames|, passCount, |hostnames| - passCount, failures, passes);
  }

  method Record(ghost db: DB<Counter>, ghost maintenance: string, ghost done: seq<string>,
                passCount: nat, failures: seq<Entry>, passes: seq<Entry>, host: string, verdict: Verdict)
    returns (passCount': nat, failures': seq<Entry>, passes': seq<Entry>)
    requires Tallied(db, maintenance, done, passCount, failures, passes)
    requires verdict == VerdictOn(db, maintenance, host)
    ensures Tallied(db, maintenance, done + [host], passCount', failures', passes')
  {
    var entry := Entry(host, verdict);
    if Passes(verdict) {
      TallyPass(db, maintenance, done, passCount, failures, passes, host);
      passes' := AddUpTo(passes, entry);
      passCount', failures' := passCount + 1, failures;
    } else {
      TallyFail(db, maintenance, done, passCount, failures, passes, host);
      passCount', failures', passes' := passCount, failures + [entry], passes;
    }
  }

  method AddUpTo(passes: seq<Entry>, entry: Entry) returns (passes': seq<Entry>)
    requires |passes| <= MAX_PASSES
    ensures passes' == UpTo(passes + [entry], MAX_PASSES)
  {
    passes' := passes;
    if |passes| < MAX_PASSES {
      passes' := passes + [entry];
    }
  }

  /** The two queries' results hold what the verdicts of the listed devices need. */
  ghost predicate Loaded(db: DB<Counter>, maintenance: string, active: set<string>,
                         current: map<string, seq<Counter>>, prev: map<string, map<string, int>>) {
    forall host :: host in active ==>
      && RowsAt(current, host) == LatestOf(db, DeviceKey(maintenance, host))
      && (host in current ==> CountersAt(prev, host) == Counters(PreviousRows(db, DeviceKey(maintenance, host))))
  }

  method LoadRows(db: DB<Counter>, maintenance: string, active: set<string>)
    returns (current: map<string, seq<Counter>>, prev: map<string, map<string, int>>)
    requires BatchTable(db)
    ensures Loaded(db, maintenance, active, current, prev)
  {
    current := GroupRows(GetLatest(db, maintenance, ERROR_COUNT), active);
    prev := GetPreviousBatches(db, maintenance, current.Keys);
  }

  method DeviceVerdict(db: DB<Counter>, maintenance: string, ghost active: set<string>,
                       current: map<string, seq<Counter>>, prev: map<string, map<string, int>>, host: string)
    returns (verdict: Verdict)
    requires Loaded(db, maintenance, active, current, prev) && host in active
    ensures verdict == VerdictOn(db, maintenance, host)
  {
    var key := DeviceKey(maintenance, host);
    if host in current {
      verdict := JudgeDevice(current[host], CountersAt(prev, host), PreviousRows(db, key), key in db.errors,
        key in db.latest);
    } else {
      verdict := JudgeDevice([], map[], [], key in db.errors, key in db.latest);
    }
  }

  // ---- What the verdict means over a history of collections ----

  lemma {:induction false} CountersMeaning(rows: seq<Counter>, iface: string, crc: int)
    ensures iface in Counters(rows) && Counters(rows)[iface] == crc <==>
      exists k :: 0 <= k < |rows| && rows[k] == Counter(iface, crc) && NoLater(rows, k)
  {
    if rows != [] {
      var front, last := Front(rows), Last(rows);
      CountersMeaning(front, iface, crc);
      if iface == last.iface {
        assert NoLater(rows, |rows| - 1);
      } else {
        forall k | 0 <= k < |front| && front[k].iface == iface ensures NoLater(rows, k) <==> NoLater(front, k) {
          assert NoLater(front, k) ==> NoLater(rows, k) by {
            assert forall j :: k < j < |front| ==> rows[j] == front[j];
          }
        }
      }
    }
  }

  ghost predicate NoLater(rows: seq<Counter>, k: nat)
    requires k < |rows|
  {
    forall j :: k < j < |rows| ==> rows[j].iface != rows[k].iface
  }

  /** The errors an interface counts; the collector stores no row for an interface without errors. */
  function CountOf(rows: seq<Counter>, iface: string): int {
    var counters := Counters(rows);
    if iface in counters then counters[iface] else 0
  }

  /** It is what the last row of the interface says, and 0 without a row. */
  lemma CountOfMeaning(rows: seq<Counter>, iface: string)
    ensures if forall row :: row in rows ==> row.iface != iface then CountOf(rows, iface) == 0
      else exists k :: 0 <= k < |rows| && rows[k] == Counter(iface, CountOf(rows, iface)) && NoLater(rows, k)
  {
    CountersMeaning(rows, iface, CountOf(rows, iface));
    forall row | row in rows && row.iface == iface ensures iface in Counters(rows) { RowCounts(rows, row); }
  }

  lemma {:induction false} RowCounts(rows: seq<Counter>, row: Counter)
    requires row in rows
    ensures row.iface in Counters(rows)
  {
    assert rows == Front(rows) + [Last(rows)];
    if row in Front(rows) { RowCounts(Front(rows), row); }
  }

  /** Growth between two change points: some interface counts more errors than before. */
  ghost predicate Increased(prev: seq<Counter>, current: seq<Counter>) {
    exists row :: row in current && CountOf(prev, row.iface) < row.crc
  }

  /** Growth of an interface that had errors before. */
  ghost predicate KnownIncreased(prev: seq<Counter>, current: seq<Counter>) {
    exists row :: row in current && row.iface in Counters(prev) && Counters(prev)[row.iface] < row.crc
  }

  /** An interface has errors for the first time. */
  ghost predicate FirstErrors(prev: seq<Counter>, current: seq<Counter>) {
    exists row :: row in current && row.iface !in Counters(prev) && row.crc > 0
  }

  lemma {:induction false} GrowthsMember(prev: map<string, int>, rows: seq<Counter>)
    ensures Growths(prev, rows) != [] <==> exists row :: row in rows && GrowthOf(prev, row) != []
  {
    if rows != [] {
      GrowthsMember(prev, Front(rows));
      assert rows == Front(rows) + [Last(rows)];
      assert Last(rows) in rows;
    }
  }

  /** What makes a device fail: nothing collected, or growth of an interface that had errors before. */
  ghost predicate ShouldFail(current: seq<Counter>, prev: seq<Counter>, failed: bool, collected: bool) {
    if current == [] then failed || !collected else KnownIncreased(prev, current)
  }

  lemma FailsIff(current: seq<Counter>, prev: seq<Counter>, failed: bool, collected: bool)
    ensures !Passes(Judge(current, prev, failed, collected)) <==> ShouldFail(current, prev, failed, collected)
  {
    GrowthsMember(Counters(prev), current);
    if current != [] && KnownIncreased(prev, current) {
      var row :| row in current && row.iface in Counters(prev) && Counters(prev)[row.iface] < row.crc;
      assert GrowthOf(Counters(prev), row) != [];
    }
    if current != [] && prev != [] && !Passes(Judge(current, prev, failed, collected)) {
      var row :| row in current && GrowthOf(Counters(prev), row) != [];
    }
  }

  /** All growth is growth of an interface with errors before, or first errors. */
  lemma IncreasedIff(prev: seq<Counter>, current: seq<Counter>)
    ensures Increased(prev, current) <==> KnownIncreased(prev, current) || FirstErrors(prev, current)
  {
    if Increased(prev, current) {
      var row :| row in current && CountOf(prev, row.iface) < row.crc;
      assert row.iface in Counters(prev) || (row.iface !in Counters(prev) && row.crc > 0);
    }
    if KnownIncreased(prev, current) {
      var row :| row in current && row.iface in Counters(prev) && Counters(prev)[row.iface] < row.crc;
      assert CountOf(prev, row.iface) < row.crc;
    }
    if FirstErrors(prev, current) {
      var row :| row in current && row.iface !in Counters(prev) && row.crc > 0;
      assert CountOf(prev, row.iface) < row.crc;
    }
  }

  /** The rows of the change point `back` places before the newest. */
  function ChangePoint(ops: Ops<Counter>, history: seq<Event<Counter>>, key: Key, back: nat): seq<Counter> {
    var changes := Collapse(ops, Snapshots(history, key));
    if |changes| <= back then [] else Normalized(ops, FromEnd(changes, back))
  }

  /**
   Under retention the previous batch is the change point right before the newest one, or it is
   gone; it is never an older one.
   */
  lemma PreviousIsNeighbour(ops: Ops<Counter>, history: seq<Event<Counter>>, key: Key)
    requires Chronological(history)
    ensures var db := Replay(ops, history);
      PreviousRows(db, key) == if |BatchesOf(db, key)| < 2 then [] else ChangePoint(ops, history, key, 1)
  {
    if |BatchesOf(Replay(ops, history), key)| >= 2 { NthNewest(ops, history, key, 1); }
  }

  /** It is gone only after a clean-up of old batches. */
  lemma PreviousGoneOnlyByCleanup(ops: Ops<Counter>, history: seq<Event<Counter>>, key: Key)
    requires Chronological(history) && NoOldCleaned(history)
    ensures PreviousRows(Replay(ops, history), key) == ChangePoint(ops, history, key, 1)
  {
    PreviousIsNeighbour(ops, history, key);
    StoredBatchesAreChangePoints(ops, history, key);
  }

  lemma NewestIsLatest(ops: Ops<Counter>, history: seq<Event<Counter>>, key: Key)
    ensures LatestOf(Replay(ops, history), key) == ChangePoint(ops, history, key, 0)
  {
    LatestRows(ops, history, key);
  }

  lemma CollectedIffSnapshots(ops: Ops<Counter>, history: seq<Event<Counter>>, key: Key)
    ensures key in Replay(ops, history).latest <==> Snapshots(history, key) != []
  {
    ReplayLatest(ops, history, key);
  }

  /** The verdict on a device, over every history of collections, failures and clean-ups. */
  lemma VerdictOverHistory(ops: Ops<Counter>, history: seq<Event<Counter>>, maintenance: string, host: string)
    requires Chronological(history)
    ensures var db, key := Replay(ops, history), DeviceKey(maintenance, host);
      var prev := if |BatchesOf(db, key)| < 2 then [] else ChangePoint(ops, history, key, 1);
      VerdictOn(db, maintenance, host) ==
        Judge(ChangePoint(ops, history, key, 0), prev, LastFailure(history, key).Some?, Snapshots(history, key) != [])
  {
    var key := DeviceKey(maintenance, host);
    PreviousIsNeighbour(ops, history, key);
    NewestIsLatest(ops, history, key);
    ErrorIffLastFailed(ops, history, key);
    CollectedIffSnapshots(ops, history, key);
  }

  /** Whether the previous change point of a device is still stored. */
  predicate PreviousKept(db: DB<Counter>, key: Key) {
    |BatchesOf(db, key)| >= 2
  }

  /**
   When a device fails, over every history: nothing could be collected from it, or an interface that
   had errors at the previous change point, which is still stored, has more at the newest.
   */
  lemma FailsOverHistory(ops: Ops<Counter>, history: seq<Event<Counter>>, maintenance: string, host: string)
    requires Chronological(history)
    ensures var db, key := Replay(ops, history), DeviceKey(maintenance, host);
      var prev, current := ChangePoint(ops, history, key, 1), ChangePoint(ops, history, key, 0);
      !Passes(VerdictOn(db, maintenance, host)) <==>
        if current == [] then LastFailure(history, key).Some? || Snapshots(history, key) == []
        else PreviousKept(db, key) && KnownIncreased(prev, current)
  {
    var db, key := Replay(ops, history), DeviceKey(maintenance, host);
    var read := if PreviousKept(db, key) then ChangePoint(ops, history, key, 1) else [];
    VerdictOverHistory(ops, history, maintenance, host);
    FailsIff(ChangePoint(ops, history, key, 0), read, LastFailure(history, key).Some?, Snapshots(history, key) != []);
  }

  /** Some interface counts more errors at the newest change point than at the one before; the first has none before. */
  ghost predicate ErrorsGrew(ops: Ops<Counter>, history: seq<Event<Counter>>, key: Key) {
    && |Collapse(ops, Snapshots(history, key))| >= 2
    && Increased(ChangePoint(ops, history, key, 1), ChangePoint(ops, history, key, 0))
  }

  /** The indicator is meant to fail a device exactly when its errors grew. */
  ghost predicate VerdictAgrees(ops: Ops<Counter>, history: seq<Event<Counter>>, maintenance: string, host: string) {
    Passes(VerdictOn(Replay(ops, history), maintenance, host)) <==>
      !ErrorsGrew(ops, history, DeviceKey(maintenance, host))
  }

  /** Growth that the evaluator does not look at: first errors of an interface, or an older change point not stored. */
  ghost predicate UnseenGrowth(ops: Ops<Counter>, history: seq<Event<Counter>>, key: Key) {
    var prev, current := ChangePoint(ops, history, key, 1), ChangePoint(ops, history, key, 0);
    && |Collapse(ops, Snapshots(history, key))| >= 2
    && (FirstErrors(prev, current) || KnownIncreased(prev, current))
    && !(PreviousKept(Replay(ops, history), key) && KnownIncreased(prev, current))
  }

  /**
   When the verdict agrees with growth, over every history: a device without error rows must have
   been collected without failure; for any other there must be no growth the evaluator overlooks.
   */
  lemma AgreesIff(ops: Ops<Counter>, history: seq<Event<Counter>>, maintenance: string, host: string)
    requires Chronological(history)
    ensures var key := DeviceKey(maintenance, host);
      VerdictAgrees(ops, history, maintenance, host) <==>
        if ChangePoint(ops, history, key, 0) == [] then LastFailure(history, key).None? && Snapshots(history, key) != []
        else !UnseenGrowth(ops, history, key)
  {
    var key := DeviceKey(maintenance, host);
    FailsOverHistory(ops, history, maintenance, host);
    IncreasedIff(ChangePoint(ops, history, key, 1), ChangePoint(ops, history, key, 0));
    if PreviousKept(Replay(ops, history), key) { NthNewest(ops, history, key, 1); }
  }

  // ---- Growth that passes ----

  function Twice(key: Key, a: seq<Counter>, b: seq<Counter>): seq<Event<Counter>> {
    [Observed(key, a, 0), Observed(key, b, 1)]
  }

  /** Two collections with interface names in normal form and different hashes. */
  ghost predicate Distinct(ops: Ops<Counter>, a: seq<Counter>, b: seq<Counter>) {
    Hash(ops, a) != Hash(ops, b) && Normalized(ops, a) == a && Normalized(ops, b) == b
  }

  lemma TwiceChanges(ops: Ops<Counter>, key: Key, a: seq<Counter>, b: seq<Counter>)
    requires Distinct(ops, a, b)
    ensures Chronological(Twice(key, a, b))
    ensures Collapse(ops, Snapshots(Twice(key, a, b), key)) == [a, b]
    ensures ChangePoint(ops, Twice(key, a, b), key, 1) == a && ChangePoint(ops, Twice(key, a, b), key, 0) == b
  {
    SnapshotsObserve([], key, a, 0);
    SnapshotsObserve([Observed(key, a, 0)], key, b, 1);
    assert [] + [Observed(key, a, 0)] == [Observed(key, a, 0)];
    assert [Observed(key, a, 0)] + [Observed(key, b, 1)] == Twice(key, a, b);
    CollapseAppend(ops, [], a);
    CollapseAppend(ops, [a], b);
    assert [] + [a] == [a] && [a] + [b] == [a, b];
  }

  const GI2_ONLY := [Counter("Gi2", 3)]
  const GI1_TOO := [Counter("Gi1", 500), Counter("Gi2", 3)]
  const GI1_ONLY := [Counter("Gi1", 500)]

  /** The first errors of an interface pass when another one had errors before and did not change ... */
  lemma FirstErrorsPass(ops: Ops<Counter>, maintenance: string, host: string)
    requires Distinct(ops, GI2_ONLY, GI1_TOO)
    ensures var key := DeviceKey(maintenance, host);
      var history := Twice(key, GI2_ONLY, GI1_TOO);
      Passes(VerdictOn(Replay(ops, history), maintenance, host)) && ErrorsGrew(ops, history, key)
  {
    var key := DeviceKey(maintenance, host);
    TwiceChanges(ops, key, GI2_ONLY, GI1_TOO);
    assert Counters(GI2_ONLY) == Counters([])["Gi2" := 3] by { assert Front(GI2_ONLY) == []; }
    assert GI1_TOO[0] in GI1_TOO && CountOf(GI2_ONLY, GI1_TOO[0].iface) < GI1_TOO[0].crc;
    FailsOverHistory(ops, Twice(key, GI2_ONLY, GI1_TOO), maintenance, host);
  }

  /** ... and when the device had no errors at all. */
  lemma ErrorsAfterNonePass(ops: Ops<Counter>, maintenance: string, host: string)
    requires Distinct(ops, [], GI1_ONLY)
    ensures var key := DeviceKey(maintenance, host);
      var history := Twice(key, [], GI1_ONLY);
      Passes(VerdictOn(Replay(ops, history), maintenance, host)) && ErrorsGrew(ops, history, key)
  {
    var key := DeviceKey(maintenance, host);
    TwiceChanges(ops, key, [], GI1_ONLY);
    assert GI1_ONLY[0] in GI1_ONLY && CountOf([], GI1_ONLY[0].iface) < GI1_ONLY[0].crc;
    FailsOverHistory(ops, Twice(key, [], GI1_ONLY), maintenance, host);
  }

  // ---- What each verdict says ----

  /** The interface had errors before and has more now. */
  function Grows(prev: seq<Counter>): Counter -> bool {
    (row: Counter) => row.iface in Counters(prev) && CountOf(prev, row.iface) < row.crc
  }

  /** The entry of a growing interface: by how much, from what, to what. */
  function GrowthEntry(prev: seq<Counter>): Counter -> Growth {
    (row: Counter) => Growth(row.iface, row.crc - CountOf(prev, row.iface), CountOf(prev, row.iface), row.crc)
  }

  lemma {:induction false} GrowthsMeaning(prev: seq<Counter>, rows: seq<Counter>)
    ensures Growths(Counters(prev), rows) == Map(Filter(rows, Grows(prev)), GrowthEntry(prev))
  {
    if rows != [] {
      GrowthsMeaning(prev, Front(rows));
    }
  }

  /** Each verdict, in terms of the rows at the two change points and of what happened to the device. */
  ghost predicate VerdictTells(v: Verdict, current: seq<Counter>, prev: seq<Counter>, failed: bool, collected: bool) {
    match v
    case CollectionFailed => current == [] && failed
    case NeverCollected => current == [] && !failed && !collected
    case NoErrors => current == [] && !failed && collected
    case NoHistory => current != [] && prev == []
    case NotGrowing => current != [] && prev != [] && forall row :: row in current ==> !Grows(prev)(row)
    case Grew(growth) =>
      && current != [] && prev != [] && growth != []
      && growth == Map(Filter(current, Grows(prev)), GrowthEntry(prev))
  }

  lemma JudgeTells(current: seq<Counter>, prev: seq<Counter>, failed: bool, collected: bool)
    ensures VerdictTells(Judge(current, prev, failed, collected), current, prev, failed, collected)
  {
    GrowthsMeaning(prev, current);
    forall row | row in current && Grows(prev)(row) ensures Filter(current, Grows(prev)) != [] {
      FilterMember(current, Grows(prev), row);
    }
  }

  /** Over every history, the verdict on a device and the figures it lists. */
  lemma VerdictMeaning(ops: Ops<Counter>, history: seq<Event<Counter>>, maintenance: string, host: string)
    requires Chronological(history)
    ensures var db, key := Replay(ops, history), DeviceKey(maintenance, host);
      VerdictTells(VerdictOn(db, maintenance, host), ChangePoint(ops, history, key, 0),
        if PreviousKept(db, key) then ChangePoint(ops, history, key, 1) else [],
        LastFailure(history, key).Some?, Snapshots(history, key) != [])
  {
    var db, key := Replay(ops, history), DeviceKey(maintenance, host);
    VerdictOverHistory(ops, history, maintenance, host);
    JudgeTells(ChangePoint(ops, history, key, 0), if PreviousKept(db, key) then ChangePoint(ops, history, key, 1)
      else [],
      LastFailure(history, key).Some?, Snapshots(history, key) != []);
  }
}
