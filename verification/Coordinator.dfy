/**
 The sequential parts of `CollectionCoordinator.run_round` (app/snmp/collection_coordinator.py):
 building the device list of a round and adding up its result.
 */
module Coordinator {
  import opened Wrappers
  import R = RoundProtocol
  import DeviceOutcomes
  import RoundTheorems

  // ---- Device list ----

  /** The columns of one row of the maintenance device list that a round reads. */
  datatype DeviceRow = DeviceRow(
    newHostname: Option<string>, newIp: Option<string>, newVendor: Option<string>,
    oldHostname: Option<string>, oldIp: Option<string>, oldVendor: Option<string>)

  datatype DeviceInfo = DeviceInfo(hostname: string, ip: string, vendor: Option<string>)

  function Key(info: DeviceInfo): (string, string) {
    (info.hostname, info.ip)
  }

  /** The collection targets a row names: its new device, then its old one. */
  function TargetsOf(row: DeviceRow): seq<DeviceInfo> {
    (if NonEmpty(row.newHostname) && NonEmpty(row.newIp)
     then [DeviceInfo(row.newHostname.value, row.newIp.value, row.newVendor)] else [])
    + (if NonEmpty(row.oldHostname) && NonEmpty(row.oldIp)
       then [DeviceInfo(row.oldHostname.value, row.oldIp.value, row.oldVendor)] else [])
  }

  function Targets(rows: seq<DeviceRow>): seq<DeviceInfo> {
    if rows == [] then [] else Targets(rows[..|rows| - 1]) + TargetsOf(rows[|rows| - 1])
  }

  /** A row names its new and its old device, each if both its host name and its address are given. */
  ghost predicate NamedBy(row: DeviceRow, info: DeviceInfo) {
    && info.hostname != "" && info.ip != ""
    && (|| (row.newHostname == Some(info.hostname) && row.newIp == Some(info.ip) && info.vendor == row.newVendor)
        || (row.oldHostname == Some(info.hostname) && row.oldIp == Some(info.ip) && info.vendor == row.oldVendor))
  }

  lemma {:induction false} TargetsMeaning(rows: seq<DeviceRow>, info: DeviceInfo)
    ensures info in Targets(rows) <==> exists row :: row in rows && NamedBy(row, info)
  {
    if rows != [] {
      var front, last := rows[..|rows| - 1], rows[|rows| - 1];
      TargetsMeaning(front, info);
      assert rows == front + [last];
      assert info in TargetsOf(last) <==> NamedBy(last, info);
    }
  }

  function Keys(infos: seq<DeviceInfo>): set<(string, string)> {
    set info | info in infos :: Key(info)
  }

  lemma KeysSnoc(infos: seq<DeviceInfo>, info: DeviceInfo)
    ensures Keys(infos + [info]) == Keys(infos) + {Key(info)}
  {
    assert forall x :: x in infos + [info] <==> x in infos || x == info;
  }

  /** `result` is what remains of `all` when every entry whose key occurred before is dropped. */
  ghost predicate FirstOccurrences(all: seq<DeviceInfo>, result: seq<DeviceInfo>)
    decreases |all|
  {
    if all == [] then result == []
    else
      var front, last := all[..|all| - 1], all[|all| - 1];
      if Key(last) in Keys(front) then FirstOccurrences(front, result)
      else result != [] && result[|result| - 1] == last && FirstOccurrences(front, result[..|result| - 1])
  }

  /** Every target is collected, none twice: two devices of a round never share host name and IP. */
  lemma {:induction false} FirstOccurrencesMeaning(all: seq<DeviceInfo>, result: seq<DeviceInfo>)
    requires FirstOccurrences(all, result)
    ensures Keys(result) == Keys(all)
    ensures forall i, j :: 0 <= i < j < |result| ==> Key(result[i]) != Key(result[j])
    ensures forall info :: info in result ==> info in all
    decreases |all|
  {
    if all != [] {
      var front, last := all[..|all| - 1], all[|all| - 1];
      assert all == front + [last];
      KeysSnoc(front, last);
      if Key(last) in Keys(front) {
        FirstOccurrencesMeaning(front, result);
      } else {
        var before := result[..|result| - 1];
        FirstOccurrencesMeaning(front, before);
        assert result == before + [last];
        KeysSnoc(before, last);
        assert forall i :: 0 <= i < |before| ==> before[i] in before;
      }
    }
  }

  lemma TargetsNext(rows: seq<DeviceRow>, i: nat)
    requires i < |rows|
    ensures Targets(rows[..i + 1]) == Targets(rows[..i]) + TargetsOf(rows[i])
  {
    assert rows[..i + 1][..i] == rows[..i];
  }

  method BuildDeviceInfos(rows: seq<DeviceRow>) returns (infos: seq<DeviceInfo>)
    ensures FirstOccurrences(Targets(rows), infos)
  {
    infos := [];
    var seen: set<(string, string)> := {};
    ghost var all: seq<DeviceInfo> := [];
    for i := 0 to |rows|
      invariant all == Targets(rows[..i])
      invariant FirstOccurrences(all, infos) && seen == Keys(all)
    {
      TargetsNext(rows, i);
      infos, seen, all := AddTargets(all, infos, seen, rows[i]);
    }
    assert rows[..|rows|] == rows;
  }

  /** The new and the old device of one row. */
  method AddTargets(ghost all: seq<DeviceInfo>, infos: seq<DeviceInfo>, seen: set<(string, string)>, d: DeviceRow)
    returns (infos': seq<DeviceInfo>, seen': set<(string, string)>, ghost all': seq<DeviceInfo>)
    requires FirstOccurrences(all, infos) && seen == Keys(all)
    ensures all' == all + TargetsOf(d)
    ensures FirstOccurrences(all', infos') && seen' == Keys(all')
  {
    infos', seen', all' := infos, seen, all;
    if NonEmpty(d.newHostname) && NonEmpty(d.newIp) {
      infos', seen', all' :=
        AddDevice(all', infos', seen', DeviceInfo(d.newHostname.value, d.newIp.value, d.newVendor));
    }
    if NonEmpty(d.oldHostname) && NonEmpty(d.oldIp) {
      infos', seen', all' :=
        AddDevice(all', infos', seen', DeviceInfo(d.oldHostname.value, d.oldIp.value, d.oldVendor));
    }
  }

  method AddDevice(ghost all: seq<DeviceInfo>, infos: seq<DeviceInfo>, seen: set<(string, string)>, info: DeviceInfo)
    returns (infos': seq<DeviceInfo>, seen': set<(string, string)>, ghost all': seq<DeviceInfo>)
    requires FirstOccurrences(all, infos) && seen == Keys(all)
    ensures all' == all + [info]
    ensures FirstOccurrences(all', infos') && seen' == Keys(all')
  {
    infos', seen', all' := infos, seen + {Key(info)}, all + [info];
    if Key(info) !in seen {
      infos' := infos + [info];
      assert infos'[..|infos|] == infos;
    }
    assert (all + [info])[..|all|] == all;
    KeysSnoc(all, info);
  }

  // ---- Round result ----

  datatype DeviceResult =
    | Raised                                                         // the coroutine ended in an exception
    | Result(status: R.Status, collectorResults: map<string, string>)

  datatype Buckets = Buckets(ok: nat, timeout: nat, error: nat)

  datatype RoundResult = RoundResult(
    totalDevices: nat, ok: nat, unreachable: nat, partial: nat, perCollector: map<string, Buckets>)

  datatype Bucket = OkBucket | TimeoutBucket | ErrorBucket

  function BucketOf(status: string): Bucket {
    if status == "ok" then OkBucket
    else if status == "timeout" || status == "unreachable" then TimeoutBucket
    else ErrorBucket
  }

  lemma BucketMeaning(status: string)
    ensures BucketOf(status) == OkBucket <==> status == "ok"
    ensures BucketOf(status) == TimeoutBucket <==> status in {"timeout", "unreachable"}
  {
  }

  function Bump(b: Buckets, bucket: Bucket): Buckets {
    match bucket
    case OkBucket => b.(ok := b.ok + 1)
    case TimeoutBucket => b.(timeout := b.timeout + 1)
    case ErrorBucket => b.(error := b.error + 1)
  }

  predicate Reports(r: DeviceResult, name: string, bucket: Bucket) {
    r.Result? && name in r.collectorResults && BucketOf(r.collectorResults[name]) == bucket
  }

  function CountReports(results: seq<DeviceResult>, name: string, bucket: Bucket): nat {
    if results == [] then 0
    else
      var last := results[|results| - 1];
      CountReports(results[..|results| - 1], name, bucket) + (if Reports(last, name, bucket) then 1 else 0)
  }

  /** How many devices reported this collector at all. */
  function CountNaming(results: seq<DeviceResult>, name: string): nat {
    if results == [] then 0
    else
      var last := results[|results| - 1];
      CountNaming(results[..|results| - 1], name) + (if last.Result? && name in last.collectorResults then 1 else 0)
  }

  function CountStatus(results: seq<DeviceResult>, status: R.Status): nat {
    if results == [] then 0
    else
      var last := results[|results| - 1];
      CountStatus(results[..|results| - 1], status) + (if last.Result? && last.status == status then 1 else 0)
  }

  /** Devices that raised, or whose status is neither of the other two. */
  predicate IsPartial(r: DeviceResult) {
    r.Raised? || (r.status != R.Good && r.status != R.Unreachable)
  }

  function CountPartial(results: seq<DeviceResult>): nat {
    if results == [] then 0
    else CountPartial(results[..|results| - 1]) + (if IsPartial(results[|results| - 1]) then 1 else 0)
  }

  ghost predicate Tallied(results: seq<DeviceResult>, names: set<string>, total: RoundResult) {
    && total.ok == CountStatus(results, R.Good)
    && total.unreachable == CountStatus(results, R.Unreachable)
    && total.partial == CountPartial(results)
    && total.perCollector.Keys == names
    && forall name :: name in names ==>
         total.perCollector[name] == Buckets(
           CountReports(results, name, OkBucket),
           CountReports(results, name, TimeoutBucket),
           CountReports(results, name, ErrorBucket))
  }

  /** One result: bump the bucket of every collector it reports and the round knows. */
  method AddCollectors(perCollector: map<string, Buckets>, reported: map<string, string>)
    returns (r: map<string, Buckets>)
    ensures r.Keys == perCollector.Keys
    ensures forall name :: name in r ==>
      r[name] == if name in reported then Bump(perCollector[name], BucketOf(reported[name])) else perCollector[name]
  {
    r := perCollector;
    var todo := reported.Keys;
    while todo != {}
      invariant todo <= reported.Keys && r.Keys == perCollector.Keys
      invariant forall name :: name in r ==>
        r[name] == if name in reported && name !in todo then Bump(perCollector[name], BucketOf(reported[name]))
                   else perCollector[name]
      decreases |todo|
    {
      var name :| name in todo;
      if name in r {
        r := r[name := Bump(r[name], BucketOf(reported[name]))];
      }
      todo := todo - {name};
    }
  }

  lemma CountsNext(results: seq<DeviceResult>, i: nat, name: string, bucket: Bucket, status: R.Status)
    requires i < |results|
    ensures CountReports(results[..i + 1], name, bucket)
      == CountReports(results[..i], name, bucket) + if Reports(results[i], name, bucket) then 1 else 0
    ensures CountStatus(results[..i + 1], status)
      == CountStatus(results[..i], status) + if results[i].Result? && results[i].status == status then 1 else 0
    ensures CountPartial(results[..i + 1]) == CountPartial(results[..i]) + if IsPartial(results[i]) then 1 else 0
  {
    assert results[..i + 1][..i] == results[..i];
  }

  function Bumped(r: DeviceResult, name: string, b: Buckets): Buckets {
    if r.Result? && name in r.collectorResults then Bump(b, BucketOf(r.collectorResults[name])) else b
  }

  lemma TalliedNext(results: seq<DeviceResult>, i: nat, names: set<string>, total: RoundResult, total': RoundResult)
    requires i < |results| && Tallied(results[..i], names, total)
    requires total'.ok == total.ok + (if results[i].Result? && results[i].status == R.Good then 1 else 0)
    requires total'.unreachable == total.unreachable
      + (if results[i].Result? && results[i].status == R.Unreachable then 1 else 0)
    requires total'.partial == total.partial + (if IsPartial(results[i]) then 1 else 0)
    requires total'.perCollector.Keys == names
    requires forall name :: name in names ==>
      total'.perCollector[name] == Bumped(results[i], name, total.perCollector[name])
    ensures Tallied(results[..i + 1], names, total')
  {
    CountsNext(results, i, "", OkBucket, R.Good);
    CountsNext(results, i, "", OkBucket, R.Unreachable);
    forall name | name in names
      ensures total'.perCollector[name] == Buckets(
        CountReports(results[..i + 1], name, OkBucket),
        CountReports(results[..i + 1], name, TimeoutBucket),
        CountReports(results[..i + 1], name, ErrorBucket))
    {
      CountsNext(results, i, name, OkBucket, R.Good);
      CountsNext(results, i, name, TimeoutBucket, R.Good);
      CountsNext(results, i, name, ErrorBucket, R.Good);
    }
  }

  method Aggregate(results: seq<DeviceResult>, collectorNames: seq<string>, totalDevices: nat)
    returns (total: RoundResult)
    ensures total.totalDevices == totalDevices
    ensures Tallied(results, (set n | n in collectorNames), total)
  {
    var names := set n | n in collectorNames;
    total := RoundResult(totalDevices, 0, 0, 0, map n | n in names :: Buckets(0, 0, 0));
    for i := 0 to |results|
      invariant total.totalDevices == totalDevices
      invariant Tallied(results[..i], names, total)
    {
      ghost var before := total;
      match results[i] {
        case Raised =>
          total := total.(partial := total.partial + 1);
        case Result(status, collectorResults) =>
          if status == R.Good {
            total := total.(ok := total.ok + 1);
          } else if status == R.Unreachable {
            total := total.(unreachable := total.unreachable + 1);
          } else {
            total := total.(partial := total.partial + 1);
          }
          var perCollector := AddCollectors(total.perCollector, collectorResults);
          total := total.(perCollector := perCollector);
      }
      TalliedNext(results, i, names, before, total);
    }
    assert results[..|results|] == results;
  }

  lemma {:induction false} ReportsPartition(results: seq<DeviceResult>, name: string)
    ensures CountReports(results, name, OkBucket) + CountReports(results, name, TimeoutBucket)
      + CountReports(results, name, ErrorBucket) == CountNaming(results, name)
  {
    if results != [] { ReportsPartition(results[..|results| - 1], name); }
  }

  /**
   What a finished device hands to the aggregation: an exception, or its status with the outcome of
   every valid collector of the round, `unreachable` for all of them if the device is.
   */
  ghost predicate Outcome(pc: R.Pc, r: DeviceResult, valid: set<string>) {
    && pc.Finished?
    && if pc.status == R.Crashed then r == Raised
       else
         && r.Result? && r.status == pc.status && r.collectorResults.Keys == valid
         && (pc.status == R.Unreachable ==> forall name :: name in valid ==> r.collectorResults[name] == "unreachable")
         && (pc.status == R.Good ==> forall name :: name in valid ==> r.collectorResults[name] == "ok")
  }

  /** How many devices ended with the given status. */
  function Ended(devs: seq<R.Pc>, status: R.Status): nat {
    if devs == [] then 0
    else Ended(devs[..|devs| - 1], status) + (if devs[|devs| - 1] == R.Finished(status) then 1 else 0)
  }

  ghost predicate Outcomes(devs: seq<R.Pc>, results: seq<DeviceResult>, valid: set<string>) {
    |devs| == |results| && forall d :: 0 <= d < |devs| ==> Outcome(devs[d], results[d], valid)
  }

  lemma {:induction false} CountsByDevice(devs: seq<R.Pc>, results: seq<DeviceResult>, valid: set<string>,
                                          status: R.Status)
    requires Outcomes(devs, results, valid) && status != R.Crashed
    ensures CountStatus(results, status) == Ended(devs, status)
    ensures CountPartial(results) == Ended(devs, R.Partial) + Ended(devs, R.Crashed)
    ensures Ended(devs, R.Good) + Ended(devs, R.Unreachable) + Ended(devs, R.Partial) + Ended(devs, R.Crashed) == |devs|
  {
    if devs != [] {
      var n := |devs| - 1;
      assert Outcome(devs[n], results[n], valid);
      CountsByDevice(devs[..n], results[..n], valid, status);
    }
  }

  lemma {:induction false} ReportsByDevice(devs: seq<R.Pc>, results: seq<DeviceResult>, valid: set<string>,
                                           name: string)
    requires Outcomes(devs, results, valid)
    ensures CountNaming(results, name) == if name in valid then |devs| - Ended(devs, R.Crashed) else 0
  {
    if devs != [] {
      var n := |devs| - 1;
      assert Outcome(devs[n], results[n], valid);
      ReportsByDevice(devs[..n], results[..n], valid, name);
    }
  }

  /** All that ends well reports `ok`, all that is unreachable a timeout. */
  lemma {:induction false} BucketsByDevice(devs: seq<R.Pc>, results: seq<DeviceResult>, valid: set<string>,
                                           name: string)
    requires Outcomes(devs, results, valid) && name in valid
    ensures CountReports(results, name, OkBucket) >= Ended(devs, R.Good)
    ensures CountReports(results, name, TimeoutBucket) >= Ended(devs, R.Unreachable)
  {
    if devs != [] {
      var n := |devs| - 1;
      assert Outcome(devs[n], results[n], valid);
      BucketsByDevice(devs[..n], results[..n], valid, name);
    }
  }

  /** What the buckets of one collector say of the devices. */
  ghost predicate BucketsConserved(devs: seq<R.Pc>, valid: set<string>, name: string, b: Buckets) {
    if name in valid then
      && b.ok + b.timeout + b.error == |devs| - Ended(devs, R.Crashed)
      && b.ok >= Ended(devs, R.Good) && b.timeout >= Ended(devs, R.Unreachable)
    else b == Buckets(0, 0, 0)
  }

  /**
   Conservation over a whole round: when no step is left, every device has ended, and the tally says
   how: `ok` are those that ended well, `unreachable` the unreachable ones, `partial` the partial and
   the crashed ones.  The buckets of every valid collector add up to the devices that did not crash,
   those of an unknown one stay empty.
   */
  lemma RoundConserved(cfg: R.Config, init: R.State, run: seq<R.Action>, results: seq<DeviceResult>,
                       names: set<string>, valid: set<string>, total: RoundResult)
    requires R.IsInit(cfg, init) && R.Executable(cfg, init, run)
    requires forall a :: RoundTheorems.Ordinary(a) ==> !R.Enabled(cfg, R.After(cfg, init, run), a)
    requires |results| == |R.After(cfg, init, run).devs|
    requires forall d :: 0 <= d < |results| && R.After(cfg, init, run).devs[d].Finished? ==>
      Outcome(R.After(cfg, init, run).devs[d], results[d], valid)
    requires Tallied(results, names, total)
    ensures var devs := R.After(cfg, init, run).devs;
      && |devs| == |cfg.ips|
      && total.ok == Ended(devs, R.Good) && total.unreachable == Ended(devs, R.Unreachable)
      && total.partial == Ended(devs, R.Partial) + Ended(devs, R.Crashed)
      && total.ok + total.unreachable + total.partial == |cfg.ips|
    ensures forall name :: name in names ==>
      BucketsConserved(R.After(cfg, init, run).devs, valid, name, total.perCollector[name])
  {
    var devs := R.After(cfg, init, run).devs;
    if !RoundTheorems.AllFinished(R.After(cfg, init, run)) {
      var a := RoundTheorems.NoDeadlock(cfg, init, run);
    }
    assert Outcomes(devs, results, valid);
    CountsByDevice(devs, results, valid, R.Good);
    CountsByDevice(devs, results, valid, R.Unreachable);
    forall name | name in names ensures BucketsConserved(devs, valid, name, total.perCollector[name]) {
      ReportsPartition(results, name);
      ReportsByDevice(devs, results, valid, name);
      if name in valid { BucketsByDevice(devs, results, valid, name); }
    }
  }

  /** How many of the first `n` devices had every collector succeed, were saved, and so count as ok. */
  function Succeeded(cfg: R.Config, run: seq<R.Action>, n: nat): nat {
    if n == 0 then 0
    else
      var d := n - 1;
      Succeeded(cfg, run, d) +
      (if R.Saved(d) in run && DeviceOutcomes.Collected(run, d) == cfg.collectors && R.CollectorDone(d, false) !in run
       then 1 else 0)
  }

  /** How many had all collectors come back, some of them without success, or ended in an exception. */
  function FellShort(cfg: R.Config, run: seq<R.Action>, n: nat): nat
    requires n <= |cfg.vendorOk|
  {
    if n == 0 then 0
    else
      var d := n - 1;
      FellShort(cfg, run, d) +
      (if R.Saved(d) in run && DeviceOutcomes.Collected(run, d) == cfg.collectors && R.CollectorDone(d, false) in run
       then 1 else 0) +
      (if (R.Start(d) in run && !cfg.vendorOk[d]) || R.EngineCrash(d) in run then 1 else 0)
  }

  lemma {:induction false} EndedByRun(cfg: R.Config, init: R.State, run: seq<R.Action>, n: nat)
    requires R.IsInit(cfg, init) && R.Executable(cfg, init, run) && n <= |cfg.ips|
    ensures var devs := R.After(cfg, init, run).devs[..n];
      && Ended(devs, R.Good) == Succeeded(cfg, run, n)
      && Ended(devs, R.Partial) + Ended(devs, R.Crashed) == FellShort(cfg, run, n)
  {
    if n > 0 {
      var devs := R.After(cfg, init, run).devs;
      assert devs[..n][..n - 1] == devs[..n - 1] && devs[..n][n - 1] == devs[n - 1];
      EndedByRun(cfg, init, run, n - 1);
      DeviceOutcomes.StatusIff(cfg, init, run, n - 1);
    }
  }

  /**
   The figures of a finished round in terms of what happened in it: ok are the devices whose
   collectors all succeeded, partial those with a failed collector or an exception, unreachable the rest.
   */
  lemma RoundTellsRun(cfg: R.Config, init: R.State, run: seq<R.Action>, results: seq<DeviceResult>,
                      names: set<string>, valid: set<string>, total: RoundResult)
    requires R.IsInit(cfg, init) && R.Executable(cfg, init, run)
    requires forall a :: RoundTheorems.Ordinary(a) ==> !R.Enabled(cfg, R.After(cfg, init, run), a)
    requires |results| == |R.After(cfg, init, run).devs|
    requires forall d :: 0 <= d < |results| && R.After(cfg, init, run).devs[d].Finished? ==>
      Outcome(R.After(cfg, init, run).devs[d], results[d], valid)
    requires Tallied(results, names, total)
    ensures total.ok == Succeeded(cfg, run, |cfg.ips|) && total.partial == FellShort(cfg, run, |cfg.ips|)
    ensures total.unreachable == |cfg.ips| - total.ok - total.partial
  {
    RoundConserved(cfg, init, run, results, names, valid, total);
    EndedByRun(cfg, init, run, |cfg.ips|);
    var devs := R.After(cfg, init, run).devs;
    assert devs[..|cfg.ips|] == devs;
  }
}
