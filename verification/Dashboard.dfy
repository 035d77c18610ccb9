/**
 The arithmetic of the dashboard summary (`get_dashboard_summary`, `_compute_indicator_status`,
 `_compute_overall_status` in app/services/indicator_service.py): collection errors are added to the
 failures of an indicator, ignored devices are moved to its passes.
 */
module Dashboard {
  /** What an evaluator reports; `failures` holds the device of each failure entry. */
  datatype Evaluation = Evaluation(total: int, pass: int, fail: int, failures: seq<string>)

  /** The contract of every evaluator. */
  predicate Sound(e: Evaluation) {
    e.pass >= 0 && e.pass + e.fail == e.total && e.fail == |e.failures|
  }

  datatype Status = SystemError | NoData | Error | Warning | Success

  datatype Counts = Counts(total: int, pass: int, fail: int)

  datatype Entry = Entry(counts: Counts, rate: int, status: Status, collectionErrors: nat)

  datatype Overall = Overall(counts: Counts, rate: int, status: Status)

  function Devices(failures: seq<string>): set<string> {
    set d | d in failures
  }

  /** The quotient as a whole percentage, rounded down. */
  function Rate(c: Counts): int {
    if c.total > 0 then c.pass * 100 / c.total else 0
  }

  function IndicatorStatus(total: int, fail: int, rate: int, collectionErrors: nat): Status {
    if total == 0 then (if collectionErrors > 0 then SystemError else NoData)
    else if fail > 0 && collectionErrors > 0 then SystemError
    else if fail == 0 then Success
    else if rate < 80 then Error
    else Warning
  }

  function OverallStatus(rate: int): Status {
    if rate >= 100 then Success else if rate >= 80 then Warning else Error
  }

  /** One indicator, given the devices with collection errors and those on which it is ignored. */
  function Adjust(e: Evaluation, errorDevices: set<string>, ignored: set<string>): Counts {
    var failed := Devices(e.failures);
    var supplement := |errorDevices| - |failed * errorDevices|;
    var forgiven := |failed * ignored| + |(errorDevices - failed) * ignored|;
    Counts(e.total + supplement, e.pass + forgiven, e.fail + supplement - forgiven)
  }

  function Display(c: Counts, collectionErrors: nat): Entry {
    Entry(c, Rate(c), IndicatorStatus(c.total, c.fail, Rate(c), collectionErrors), collectionErrors)
  }

  // ---- Cardinalities ----

  lemma Split<T>(a: set<T>, b: set<T>)
    ensures |a| == |a * b| + |a - b|
  {
    assert a == a * b + (a - b);
  }

  lemma {:induction false} FewerDevices(failures: seq<string>)
    ensures |Devices(failures)| <= |failures|
  {
    if failures != [] {
      var front, last := failures[..|failures| - 1], failures[|failures| - 1];
      FewerDevices(front);
      assert failures == front + [last];
      assert Devices(failures) == Devices(front) + {last};
    }
  }

  /** Counting devices once each: all failed or broken ones, and the forgiven among them. */
  lemma CountedOnce(failed: set<string>, broken: set<string>, ignored: set<string>)
    ensures |broken| - |failed * broken| == |broken - failed|
    ensures |failed + broken| == |failed| + |broken - failed|
    ensures |failed * ignored| + |(broken - failed) * ignored| == |(failed + broken) * ignored|
  {
    Split(broken, failed);
    assert broken * failed == failed * broken;
    assert failed + broken == failed + (broken - failed);
    assert (failed + broken) * ignored == failed * ignored + (broken - failed) * ignored;
  }

  /**
   After the adjustment an indicator fails for the devices that failed or could not be collected and
   are not ignored, plus the further failure entries of devices that failed more than once.
   */
  lemma AdjustedFailures(e: Evaluation, errorDevices: set<string>, ignored: set<string>)
    requires Sound(e)
    ensures var a, failed := Adjust(e, errorDevices, ignored), Devices(e.failures);
      && a.fail == |(failed + errorDevices) - ignored| + (|e.failures| - |failed|)
      && a.total == e.total + |errorDevices - failed|
      && Adds(a)
  {
    var failed := Devices(e.failures);
    FewerDevices(e.failures);
    CountedOnce(failed, errorDevices, ignored);
    Split(failed + errorDevices, ignored);
  }

  ghost predicate Adds(c: Counts) {
    c.pass >= 0 && c.fail >= 0 && c.pass + c.fail == c.total
  }

  lemma QuotientBelow(a: int, n: int, bound: int)
    requires n > 0 && 0 <= a < n * bound
    ensures 0 <= a / n < bound
  {
    assert a == a / n * n + a % n;
    if a / n >= bound { Monotone(bound, a / n, n); }
  }

  lemma QuotientAtLeast(a: int, n: int, bound: int)
    requires n > 0 && n * bound <= a
    ensures bound <= a / n
  {
    assert a == a / n * n + a % n;
    if a / n + 1 <= bound { Monotone(a / n + 1, bound, n); }
  }

  lemma Monotone(a: int, b: int, n: int)
    requires a <= b && n >= 0
    ensures n * a <= n * b
  {
  }

  /** The rounded rate is 100 only without failures. */
  lemma RateFull(c: Counts)
    requires Adds(c) && c.total > 0
    ensures 0 <= Rate(c) <= 100
    ensures Rate(c) == 100 <==> c.fail == 0
  {
    QuotientBelow(c.pass * 100, c.total, 101);
    if c.fail == 0 {
      QuotientAtLeast(c.pass * 100, c.total, 100);
    } else {
      QuotientBelow(c.pass * 100, c.total, 100);
    }
  }

  /** Where the rounded rate falls below a threshold, the exact one does, and conversely. */
  lemma RateBelow(c: Counts, percent: nat)
    requires Adds(c) && c.total > 0
    ensures Rate(c) < percent <==> c.pass * 100 < c.total * percent
  {
    if c.pass * 100 < c.total * percent {
      QuotientBelow(c.pass * 100, c.total, percent);
    } else {
      QuotientAtLeast(c.pass * 100, c.total, percent);
    }
  }

  /**
   What the status colours say of the figures, whatever the rate.  The conditions exclude each other,
   so each status is shown exactly under its own.
   */
  ghost predicate StatusTells(total: int, fail: int, rate: int, collectionErrors: nat) {
    match IndicatorStatus(total, fail, rate, collectionErrors)
    case NoData => total == 0
    case Success => total > 0 && fail == 0
    case SystemError => fail > 0 && collectionErrors > 0
    case Error => fail > 0 && collectionErrors == 0 && rate < 80
    case Warning => fail > 0 && collectionErrors == 0 && rate >= 80
  }

  lemma StatusMeaning(e: Evaluation, errorDevices: set<string>, ignored: set<string>, rate: int)
    requires Sound(e)
    ensures var c := Adjust(e, errorDevices, ignored); StatusTells(c.total, c.fail, rate, |errorDevices|)
  {
    var c := Adjust(e, errorDevices, ignored);
    AdjustedFailures(e, errorDevices, ignored);
    NothingToCount(e, errorDevices, ignored);
    StatusOf(c.total, c.fail, rate, |errorDevices|);
  }

  /** Green overall: there are items and none fails. */
  lemma OverallGreen(c: Counts)
    requires Adds(c)
    ensures OverallStatus(Rate(c)) == Success <==> c.total > 0 && c.fail == 0
  {
    if c.total > 0 { RateFull(c); }
  }

  lemma StatusOf(total: int, fail: int, rate: int, collectionErrors: nat)
    requires 0 <= fail <= total && (total == 0 ==> collectionErrors == 0)
    ensures StatusTells(total, fail, rate, collectionErrors)
  {
  }

  /** An indicator without any item has no collection errors either: they would have been counted. */
  lemma NothingToCount(e: Evaluation, errorDevices: set<string>, ignored: set<string>)
    requires Sound(e)
    ensures Adjust(e, errorDevices, ignored).total == 0 ==> |errorDevices| == 0
  {
    var failed := Devices(e.failures);
    FewerDevices(e.failures);
    CountedOnce(failed, errorDevices, ignored);
    if |failed| == 0 { assert errorDevices - failed == errorDevices; }
  }

  /** An evaluator that judges devices: `passing` passed, and each failed device has one entry. */
  ghost predicate ByDevice(e: Evaluation, passing: set<string>) {
    && Sound(e) && e.pass == |passing| && |Devices(e.failures)| == |e.failures|
    && passing !! Devices(e.failures)
  }

  /**
   The adjusted total counts each device once exactly if no device with a collection error passed;
   one that did is counted as a pass and again as not collected.
   */
  lemma EachDeviceOnceIff(e: Evaluation, passing: set<string>, errorDevices: set<string>, ignored: set<string>)
    requires ByDevice(e, passing)
    ensures var devices := passing + Devices(e.failures) + errorDevices;
      && Adjust(e, errorDevices, ignored).total == |devices| + |passing * errorDevices|
      && (Adjust(e, errorDevices, ignored).total == |devices| <==> passing !! errorDevices)
  {
    var failed := Devices(e.failures);
    CountedOnce(failed, errorDevices, ignored);
    var seen := passing + failed;
    Disjoint(passing, failed);
    CountedOnce(seen, errorDevices, ignored);
    assert errorDevices - failed == (errorDevices - seen) + (passing * errorDevices);
    Disjoint(errorDevices - seen, passing * errorDevices);
    assert passing !! errorDevices <==> passing * errorDevices == {};
  }

  lemma Disjoint<T>(a: set<T>, b: set<T>)
    requires a !! b
    ensures |a + b| == |a| + |b|
  {
  }

  // ---- The summary ----

  datatype Summary = Summary(indicators: map<string, Entry>, overall: Overall)

  function ErrorDevicesOf(errorDevices: map<string, set<string>>, indicator: string): set<string> {
    if indicator in errorDevices then errorDevices[indicator] else {}
  }

  function IgnoredFor(ignored: map<string, seq<string>>, indicator: string): set<string> {
    set h | h in ignored && indicator in ignored[h]
  }

  function AdjustNamed(results: map<string, Evaluation>, errorDevices: map<string, set<string>>,
                       ignored: map<string, seq<string>>, indicator: string): Counts
    requires indicator in results
  {
    Adjust(results[indicator], ErrorDevicesOf(errorDevices, indicator), IgnoredFor(ignored, indicator))
  }

  /** The figures of each indicator; names without a result are never asked for. */
  function Figures(results: map<string, Evaluation>, errorDevices: map<string, set<string>>,
                   ignored: map<string, seq<string>>): string -> Counts {
    n => if n in results then AdjustNamed(results, errorDevices, ignored, n) else Counts(0, 0, 0)
  }

  function ErrorCounts(errorDevices: map<string, set<string>>): string -> nat {
    n => |ErrorDevicesOf(errorDevices, n)|
  }

  /** The column sums of the listed indicators. */
  function Sum(figures: string -> Counts, order: seq<string>): Counts {
    if order == [] then Counts(0, 0, 0)
    else
      var before, last := Sum(figures, order[..|order| - 1]), figures(order[|order| - 1]);
      Counts(before.total + last.total, before.pass + last.pass, before.fail + last.fail)
  }

  lemma {:induction false} SumAdds(figures: string -> Counts, order: seq<string>)
    requires forall n :: n in order ==> Adds(figures(n))
    ensures Adds(Sum(figures, order))
    ensures Sum(figures, order).fail == 0 <==> forall n :: n in order ==> figures(n).fail == 0
  {
    if order != [] {
      var front, last := order[..|order| - 1], order[|order| - 1];
      assert order == front + [last];
      SumAdds(figures, front);
    }
  }

  /** The order in which the dictionary of results is traversed. */
  ghost predicate Lists(order: seq<string>, results: map<string, Evaluation>) {
    && (forall n :: n in order <==> n in results)
    && (forall i, j :: 0 <= i < j < |order| ==> order[i] != order[j])
  }

  lemma SumNext(figures: string -> Counts, order: seq<string>, i: nat)
    requires i < |order|
    ensures var before, next := Sum(figures, order[..i]), figures(order[i]);
      Sum(figures, order[..i + 1])
        == Counts(before.total + next.total, before.pass + next.pass, before.fail + next.fail)
  {
    assert order[..i + 1][..i] == order[..i];
  }

  /** One pass over the indicators. */
  method Accumulate(figures: string -> Counts, errors: string -> nat, order: seq<string>)
    returns (indicators: map<string, Entry>, sum: Counts)
    ensures indicators == map n | n in order :: Display(figures(n), errors(n))
    ensures sum == Sum(figures, order)
  {
    indicators, sum := map[], Counts(0, 0, 0);
    for i := 0 to |order|
      invariant sum == Sum(figures, order[..i])
      invariant indicators == map n | n in order[..i] :: Display(figures(n), errors(n))
    {
      SumNext(figures, order, i);
      assert order[..i + 1] == order[..i] + [order[i]];
      var c := figures(order[i]);
      indicators := indicators[order[i] := Display(c, errors(order[i]))];
      sum := Counts(sum.total + c.total, sum.pass + c.pass, sum.fail + c.fail);
    }
    assert order[..|order|] == order;
  }

  /** `get_dashboard_summary` */
  method GetDashboardSummary(results: map<string, Evaluation>, order: seq<string>,
                             errorDevices: map<string, set<string>>, ignored: map<string, seq<string>>)
    returns (summary: Summary)
    requires Lists(order, results)
    ensures var figures, errors := Figures(results, errorDevices, ignored), ErrorCounts(errorDevices);
      && summary.indicators == (map n | n in order :: Display(figures(n), errors(n)))
      && summary.overall.counts == Sum(figures, order)
    ensures summary.overall.rate == Rate(summary.overall.counts)
    ensures summary.overall.status == OverallStatus(summary.overall.rate)
  {
    var indicators, sum := Accumulate(Figures(results, errorDevices, ignored), ErrorCounts(errorDevices), order);
    summary := Summary(indicators, Overall(sum, Rate(sum), OverallStatus(Rate(sum))));
  }

  /** The overall figures conserve items, and fail exactly when some indicator does. */
  lemma OverallConserved(results: map<string, Evaluation>, order: seq<string>,
                         errorDevices: map<string, set<string>>, ignored: map<string, seq<string>>)
    requires Lists(order, results) && forall n :: n in results ==> Sound(results[n])
    ensures var figures := Figures(results, errorDevices, ignored);
      && Adds(Sum(figures, order))
      && (Sum(figures, order).fail == 0 <==> forall n :: n in results ==> figures(n).fail == 0)
  {
    var figures := Figures(results, errorDevices, ignored);
    forall n | n in order ensures Adds(figures(n)) {
      AdjustedFailures(results[n], ErrorDevicesOf(errorDevices, n), IgnoredFor(ignored, n));
    }
    SumAdds(figures, order);
  }

  /** The overall sum is that of its parts, down to the single indicators. */
  lemma {:induction false} SumSplits(figures: string -> Counts, a: seq<string>, b: seq<string>, n: string)
    ensures Sum(figures, [n]) == figures(n)
    ensures var x, y := Sum(figures, a), Sum(figures, b);
      Sum(figures, a + b) == Counts(x.total + y.total, x.pass + y.pass, x.fail + y.fail)
  {
    assert [n][..0] == [];
    if b == [] {
      assert a + b == a;
    } else {
      SumSplits(figures, a, b[..|b| - 1], n);
      assert (a + b)[..|a + b| - 1] == a + b[..|b| - 1];
    }
  }

  /** The device failed the indicator or could not be collected for it, and is not told to be ignored for it. */
  ghost predicate CountsAgainst(e: Evaluation, errorDevices: map<string, set<string>>, ignored: map<string,
    seq<string>>,
                                indicator: string, device: string) {
    && (device in e.failures || (indicator in errorDevices && device in errorDevices[indicator]))
    && !(device in ignored && indicator in ignored[device])
  }

  lemma FiguresAt(results: map<string, Evaluation>, errorDevices: map<string, set<string>>,
                  ignored: map<string, seq<string>>, indicator: string)
    requires indicator in results
    ensures Figures(results, errorDevices, ignored)(indicator)
      == Adjust(results[indicator], ErrorDevicesOf(errorDevices, indicator), IgnoredFor(ignored, indicator))
  {
  }

  lemma AgainstSet(e: Evaluation, errorDevices: map<string, set<string>>, ignored: map<string, seq<string>>,
                   indicator: string, against: set<string>)
    requires forall d :: d in against <==> CountsAgainst(e, errorDevices, ignored, indicator, d)
    ensures against == (Devices(e.failures) + ErrorDevicesOf(errorDevices, indicator)) - IgnoredFor(ignored, indicator)
  {
  }

  /** What the summary shows of one indicator, device by device. */
  lemma EntryMeaning(results: map<string, Evaluation>, errorDevices: map<string, set<string>>,
                     ignored: map<string, seq<string>>, indicator: string, against: set<string>)
    requires indicator in results && Sound(results[indicator])
    requires forall d :: d in against <==> CountsAgainst(results[indicator], errorDevices, ignored, indicator, d)
    ensures var e, c := results[indicator], Figures(results, errorDevices, ignored)(indicator);
      var broken := if indicator in errorDevices then errorDevices[indicator] else {};
      && c.fail == |against| + (|e.failures| - |Devices(e.failures)|)
      && c.total == e.total + |broken - Devices(e.failures)|
      && c.pass == c.total - c.fail
      && ErrorCounts(errorDevices)(indicator) == |broken|
  {
    FiguresAt(results, errorDevices, ignored, indicator);
    AgainstSet(results[indicator], errorDevices, ignored, indicator, against);
    AdjustedFailures(results[indicator], ErrorDevicesOf(errorDevices, indicator), IgnoredFor(ignored, indicator));
  }

  ghost predicate OverallTells(status: Status, total: int, fail: int, below80: bool) {
    match status
    case Success => total > 0 && fail == 0
    case Warning => total > 0 && fail > 0 && !below80
    case Error => total == 0 || (fail > 0 && below80)
    case _ => false
  }

  lemma OverallOf(rate: int, total: int, fail: int, below80: bool)
    requires 0 <= fail <= total && (total == 0 ==> rate == 0)
    requires total > 0 ==> rate <= 100 && (rate == 100 <==> fail == 0) && (rate < 80 <==> below80)
    ensures OverallTells(OverallStatus(rate), total, fail, below80)
  {
  }

  ghost predicate Below80(c: Counts) {
    c.pass * 100 < c.total * 80
  }

  /** What the overall status needs to know of the rate. */
  ghost predicate RateTells(rate: int, total: int, fail: int, below80: bool) {
    && 0 <= fail <= total && (total == 0 ==> rate == 0)
    && (total > 0 ==> rate <= 100 && (rate == 100 <==> fail == 0) && (rate < 80 <==> below80))
  }

  lemma RateOfNothing(c: Counts)
    requires Adds(c) && c.total == 0
    ensures RateTells(Rate(c), c.total, c.fail, Below80(c))
  {
  }

  lemma RateOfSome(c: Counts)
    requires Adds(c) && c.total > 0
    ensures RateTells(Rate(c), c.total, c.fail, Below80(c))
  {
    RateFull(c);
    RateBelow(c, 80);
  }

  lemma RateMeaning(c: Counts)
    requires Adds(c)
    ensures RateTells(Rate(c), c.total, c.fail, Below80(c))
  {
    if c.total > 0 { RateOfSome(c); } else { RateOfNothing(c); }
  }

  /** What the overall status says of the figures: all pass, at least 80 percent do, fewer or nothing to judge. */
  lemma OverallMeaning(c: Counts)
    requires Adds(c)
    ensures OverallTells(OverallStatus(Rate(c)), c.total, c.fail, Below80(c))
  {
    RateMeaning(c);
    OverallOf(Rate(c), c.total, c.fail, Below80(c));
  }
}
