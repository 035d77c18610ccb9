/**
 How the devices of a round end, in terms of what happened to them: over every run, a device's final
 status is decided by the steps it made and by what was known of its IP when it started.
 */
module DeviceOutcomes {
  import C = CallOutcomes
  import P = ProbeProtocol
  import opened RoundProtocol
  import RoundTheorems

  // ---- What a run did to a device ----

  /** How many collectors have come back. */
  function Collected(run: seq<Action>, d: Dev): nat {
    if run == [] then 0
    else
      var last := run[|run| - 1];
      Collected(run[..|run| - 1], d) + (if last.CollectorDone? && last.d == d then 1 else 0)
  }

  predicate SomeFailed(run: seq<Action>, d: Dev) {
    CollectorDone(d, false) in run
  }

  /** The IP was in its cooldown when the device was started. */
  ghost predicate StartedCooling(cfg: Config, init: State, run: seq<Action>, d: Dev)
    requires d < |cfg.ips|
  {
    exists i :: 0 <= i < |run| && run[i] == Start(d) && CoolingBefore(cfg, init, run, d, i)
  }

  ghost predicate CoolingBefore(cfg: Config, init: State, run: seq<Action>, d: Dev, i: nat)
    requires d < |cfg.ips| && i <= |run|
  {
    Executable(cfg, init, run[..i]) && P.Cooling(After(cfg, init, run[..i]).probe, cfg.ips[d])
  }

  /** Its `get_target` call ended unreachable. */
  predicate TargetUnreachable(s: State, d: Dev) {
    d in s.probe.calls && s.probe.calls[d].pc == P.Done(P.Unreachable)
  }

  /** What is known of a device with this program counter. */
  datatype Facts = Facts(
    started: bool, collected: nat, failed: bool, timedOut: bool, crashed: bool, saved: bool, cooling: bool,
    unreachable: bool)

  function FactsOf(run: seq<Action>, d: Dev, cooling: bool, unreachable: bool): Facts {
    Facts(Start(d) in run, Collected(run, d), SomeFailed(run, d), HardTimeout(d) in run, EngineCrash(d) in run,
          Saved(d) in run, cooling, unreachable)
  }

  ghost function FactsAfter(cfg: Config, init: State, run: seq<Action>, d: Dev): Facts
    requires d < |cfg.ips| && Executable(cfg, init, run)
  {
    FactsOf(run, d, StartedCooling(cfg, init, run, d), TargetUnreachable(After(cfg, init, run), d))
  }

  /** Nothing but the start has been decided. */
  predicate Undecided(f: Facts) {
    f.collected == 0 && !f.failed && !f.timedOut && !f.crashed && !f.saved && !f.cooling && !f.unreachable
  }

  predicate Explains(cfg: Config, vendorOk: bool, status: Status, f: Facts) {
    match status
    case Good => vendorOk && f.collected == cfg.collectors && !f.failed && !f.timedOut && !f.crashed && !f.cooling
        && !f.unreachable
    case Partial => vendorOk && f.collected == cfg.collectors && f.failed && !f.timedOut && !f.crashed && !f.cooling
        && !f.unreachable
    case Unreachable => vendorOk && f.collected < cfg.collectors && (f.timedOut || f.cooling || f.unreachable)
        && !f.crashed
    case Crashed => (!vendorOk || f.crashed) && f.collected == 0 && !f.timedOut && !f.saved
  }

  predicate Known(cfg: Config, vendorOk: bool, pc: Pc, f: Facts) {
    match pc
    case Idle => !f.started && Undecided(f)
    case Collecting(left, allOk) =>
      && f.started && vendorOk && left > 0 && f.collected + left == cfg.collectors && (f.failed <==> !allOk)
      && Undecided(f.(collected := 0, failed := false))
    case Saving(status, _) => f.started && !f.saved && status != Crashed && Explains(cfg, vendorOk, status, f)
    case Finished(status) => f.started && (f.saved <==> status != Crashed) && Explains(cfg, vendorOk, status, f)
    case _ => f.started && vendorOk && Undecided(f)
  }

  /** How the facts change with one more step. */
  ghost predicate Follows(f: Facts, f': Facts, a: Action, d: Dev, cooling: bool) {
    var own := !a.Tick? && a.d == d;
    && (f'.started <==> f.started || (own && a.Start?))
    && f'.collected == f.collected + (if own && a.CollectorDone? then 1 else 0)
    && (f'.failed <==> f.failed || (own && a.CollectorDone? && !a.ok))
    && (f'.timedOut <==> f.timedOut || (own && a.HardTimeout?))
    && (f'.crashed <==> f.crashed || (own && a.EngineCrash?))
    && (f'.saved <==> f.saved || (own && a.Saved?))
    && (f'.cooling <==> f.cooling || (own && a.Start? && cooling))
  }

  lemma {:induction false} RunSplit(cfg: Config, s: State, run: seq<Action>, a: Action)
    requires Executable(cfg, s, run + [a])
    ensures Executable(cfg, s, run) && Enabled(cfg, After(cfg, s, run), a)
    ensures After(cfg, s, run + [a]) == Apply(cfg, After(cfg, s, run), a)
    decreases |run|
  {
    if run == [] {
      assert ([] + [a])[1..] == [] && ([] + [a])[0] == a;
    } else {
      assert (run + [a])[1..] == run[1..] + [a];
      RunSplit(cfg, Apply(cfg, s, run[0]), run[1..], a);
    }
  }

  lemma CoolingNext(cfg: Config, init: State, run: seq<Action>, a: Action, d: Dev)
    requires d < |cfg.ips| && Executable(cfg, init, run + [a]) && Executable(cfg, init, run)
    ensures StartedCooling(cfg, init, run + [a], d) <==>
      StartedCooling(cfg, init, run, d) || (a == Start(d) && P.Cooling(After(cfg, init, run).probe, cfg.ips[d]))
  {
    var all := run + [a];
    forall i | 0 <= i < |run| ensures CoolingBefore(cfg, init, all, d, i) <==> CoolingBefore(cfg, init, run, d, i) {
      assert all[..i] == run[..i];
    }
    assert all[..|run|] == run && all[|run|] == a;
    if i :| 0 <= i < |run| && run[i] == Start(d) && CoolingBefore(cfg, init, run, d, i) {
      assert all[i] == Start(d) && CoolingBefore(cfg, init, all, d, i);
    }
    assert CoolingBefore(cfg, init, all, d, |run|) <==> P.Cooling(After(cfg, init, run).probe, cfg.ips[d]);
    if i :| 0 <= i < |all| && all[i] == Start(d) && CoolingBefore(cfg, init, all, d, i) {
      if i < |run| { assert run[i] == Start(d); }
    }
  }

  lemma InNext(run: seq<Action>, a: Action, x: Action)
    ensures x in run + [a] <==> x in run || x == a
  {
  }

  lemma CollectedNext(run: seq<Action>, a: Action, d: Dev)
    ensures Collected(run + [a], d) == Collected(run, d) + if a.CollectorDone? && a.d == d then 1 else 0
  {
    assert (run + [a])[..|run|] == run;
  }

  lemma FactsNext(run: seq<Action>, a: Action, d: Dev, cooling: bool, unreachable: bool, now: bool, later: bool)
    ensures Follows(FactsOf(run, d, cooling, unreachable),
                    FactsOf(run + [a], d, cooling || (a == Start(d) && now), later), a, d, now)
  {
    CollectedNext(run, a, d);
    InNext(run, a, Start(d));
    InNext(run, a, CollectorDone(d, false));
    InNext(run, a, HardTimeout(d));
    InNext(run, a, EngineCrash(d));
    InNext(run, a, Saved(d));
  }

  // ---- The program counter tells the facts ----

  lemma MovedLeavesOthers(cfg: Config, s: State, probe: P.State, e: Dev, bound: int, d: Dev)
    requires e < |s.devs| == |cfg.ips| && d < |s.devs| && d != e
    requires P.CallMoved(cfg.probe, s.probe, probe, e, cfg.ips[e], bound)
    ensures var s' := AfterTarget(cfg, s.(probe := probe), e);
      s'.devs[d] == s.devs[d] && TargetUnreachable(s', d) == TargetUnreachable(s, d)
  {
  }

  lemma OtherTargetKnown(cfg: Config, s: State, a: Action, d: Dev)
    requires Inv(cfg, s) && Enabled(cfg, s, a) && d < |s.devs|
    requires (a.CallTarget? || a.LockGranted? || a.ProbeReply?) && a.d != d
    ensures Apply(cfg, s, a).devs[d] == s.devs[d]
    ensures TargetUnreachable(Apply(cfg, s, a), d) == TargetUnreachable(s, d)
  {
    assert CallMatches(cfg, s, a.d);
    var pa := ProbeAction(cfg, a);
    TargetCallStep(cfg.probe, s.probe, pa, cfg.ips[a.d]);
    var bound := if pa.Enter? then |cfg.probe.communities| + 2 else P.Rank(cfg.probe, s.probe.calls[a.d].pc);
    MovedLeavesOthers(cfg, s, P.Apply(cfg.probe, s.probe, pa), a.d, bound, d);
  }

  lemma OtherAbortKnown(cfg: Config, s: State, a: Action, d: Dev)
    requires Inv(cfg, s) && Enabled(cfg, s, a) && d < |s.devs|
    requires (a.EngineCrash? || a.HardTimeout?) && a.d != d
    ensures Apply(cfg, s, a).devs[d] == s.devs[d]
    ensures TargetUnreachable(Apply(cfg, s, a), d) == TargetUnreachable(s, d)
  {
    assert CallMatches(cfg, s, a.d);
    if s.devs[a.d].InTarget? { AbortStep(cfg.probe, s.probe, a.d); }
  }

  /** A step of another device, or of the clock. */
  lemma OthersKnown(cfg: Config, s: State, a: Action, d: Dev)
    requires Inv(cfg, s) && Enabled(cfg, s, a) && d < |s.devs| && (a.Tick? || a.d != d)
    ensures Apply(cfg, s, a).devs[d] == s.devs[d]
    ensures TargetUnreachable(Apply(cfg, s, a), d) == TargetUnreachable(s, d)
  {
    if a.CallTarget? || a.LockGranted? || a.ProbeReply? {
      OtherTargetKnown(cfg, s, a, d);
    } else if a.EngineCrash? || a.HardTimeout? {
      OtherAbortKnown(cfg, s, a, d);
    }
  }

  /** Where a device is after a step of its `get_target` call. */
  lemma TargetLands(cfg: Config, s: State, a: Action)
    requires Inv(cfg, s) && Enabled(cfg, s, a) && (a.CallTarget? || a.LockGranted? || a.ProbeReply?)
    ensures s.devs[a.d].InSlot? || s.devs[a.d].InTarget?
    ensures var s' := Apply(cfg, s, a);
      if TargetUnreachable(s', a.d) then s'.devs[a.d] == Saving(Unreachable, 0)
      else s'.devs[a.d] == InTarget || s'.devs[a.d] == Collecting(cfg.collectors, true)
  {
    assert CallMatches(cfg, s, a.d);
    TargetCallStep(cfg.probe, s.probe, ProbeAction(cfg, a), cfg.ips[a.d]);
  }

  lemma TargetKnown(cfg: Config, s: State, a: Action, f: Facts, f': Facts)
    requires Inv(cfg, s) && Enabled(cfg, s, a) && (a.CallTarget? || a.LockGranted? || a.ProbeReply?)
    requires Known(cfg, cfg.vendorOk[a.d], s.devs[a.d], f)
    requires Follows(f, f', a, a.d, P.Cooling(s.probe, cfg.ips[a.d]))
    requires f'.unreachable == TargetUnreachable(Apply(cfg, s, a), a.d)
    ensures Known(cfg, cfg.vendorOk[a.d], Apply(cfg, s, a).devs[a.d], f')
  {
    TargetLands(cfg, s, a);
  }

  lemma AbortKnown(cfg: Config, s: State, a: Action, f: Facts, f': Facts)
    requires Inv(cfg, s) && Enabled(cfg, s, a) && (a.EngineCrash? || a.HardTimeout?)
    requires Known(cfg, cfg.vendorOk[a.d], s.devs[a.d], f)
    requires Follows(f, f', a, a.d, P.Cooling(s.probe, cfg.ips[a.d]))
    requires f'.unreachable == TargetUnreachable(Apply(cfg, s, a), a.d)
    ensures Known(cfg, cfg.vendorOk[a.d], Apply(cfg, s, a).devs[a.d], f')
  {
    assert CallMatches(cfg, s, a.d);
    if s.devs[a.d].InTarget? { AbortStep(cfg.probe, s.probe, a.d); }
  }

  lemma DeviceKnown(cfg: Config, s: State, a: Action, f: Facts, f': Facts)
    requires Inv(cfg, s) && Enabled(cfg, s, a)
    requires a.Start? || a.TakeSlot? || a.CollectorDone? || a.Saved? || a.SaveDeadlock?
    requires Known(cfg, cfg.vendorOk[a.d], s.devs[a.d], f) && f.unreachable == TargetUnreachable(s, a.d)
    requires Follows(f, f', a, a.d, P.Cooling(s.probe, cfg.ips[a.d]))
    requires f'.unreachable == TargetUnreachable(Apply(cfg, s, a), a.d)
    ensures Known(cfg, cfg.vendorOk[a.d], Apply(cfg, s, a).devs[a.d], f')
  {
    assert CallMatches(cfg, s, a.d);
  }

  lemma StepKnown(cfg: Config, s: State, a: Action, d: Dev, f: Facts, f': Facts)
    requires Inv(cfg, s) && Enabled(cfg, s, a) && d < |s.devs| && f.unreachable == TargetUnreachable(s, d)
    requires Known(cfg, cfg.vendorOk[d], s.devs[d], f)
    requires Follows(f, f', a, d, P.Cooling(s.probe, cfg.ips[d]))
    requires f'.unreachable == TargetUnreachable(Apply(cfg, s, a), d)
    ensures Known(cfg, cfg.vendorOk[d], Apply(cfg, s, a).devs[d], f')
  {
    if a.Tick? || a.d != d {
      OthersKnown(cfg, s, a, d);
    } else if a.CallTarget? || a.LockGranted? || a.ProbeReply? {
      TargetKnown(cfg, s, a, f, f');
    } else if a.EngineCrash? || a.HardTimeout? {
      AbortKnown(cfg, s, a, f, f');
    } else {
      DeviceKnown(cfg, s, a, f, f');
    }
  }

  lemma {:induction false} RunKnown(cfg: Config, init: State, run: seq<Action>, d: Dev)
    requires IsInit(cfg, init) && Executable(cfg, init, run) && d < |cfg.ips|
    ensures Known(cfg, cfg.vendorOk[d], After(cfg, init, run).devs[d], FactsAfter(cfg, init, run, d))
    decreases |run|
  {
    if run != [] {
      var front, a := run[..|run| - 1], run[|run| - 1];
      assert run == front + [a];
      RunSplit(cfg, init, front, a);
      RunKnown(cfg, init, front, d);
      InitInv(cfg, init);
      RoundTheorems.RunKeepsInv(cfg, init, front);
      var s := After(cfg, init, front);
      CoolingNext(cfg, init, front, a, d);
      FactsNext(front, a, d, StartedCooling(cfg, init, front, d), TargetUnreachable(s, d),
        P.Cooling(s.probe, cfg.ips[d]), TargetUnreachable(After(cfg, init, run), d));
      StepKnown(cfg, s, a, d, FactsAfter(cfg, init, front, d), FactsAfter(cfg, init, run, d));
    }
  }

  // ---- Main results ----

  /**
   Over every run of a round, a device ends with all collectors succeeding, with some failing,
   unreachable, or in an exception, exactly according to what happened to it.
   */
  lemma StatusIff(cfg: Config, init: State, run: seq<Action>, d: Dev)
    requires IsInit(cfg, init) && Executable(cfg, init, run) && d < |cfg.ips|
    ensures var s, saved := After(cfg, init, run), Saved(d) in run;
      && (s.devs[d] == Finished(Good) <==>
           saved && Collected(run, d) == cfg.collectors && CollectorDone(d, false) !in run)
      && (s.devs[d] == Finished(Partial) <==>
           saved && Collected(run, d) == cfg.collectors && CollectorDone(d, false) in run)
      && (s.devs[d] == Finished(Unreachable) <==>
           saved && (HardTimeout(d) in run || StartedCooling(cfg, init, run, d) || TargetUnreachable(s, d)))
      && (s.devs[d] == Finished(Crashed) <==>
           (Start(d) in run && !cfg.vendorOk[d]) || EngineCrash(d) in run)
  {
    RunKnown(cfg, init, run, d);
  }

  // ---- Unreachable means tried ----

  /** The calls of the round are those of its devices, and those given up have a failed campaign. */
  ghost predicate CallsTold(cfg: Config, s: State)
    requires |s.devs| == |cfg.ips|
  {
    && C.GivenUp(s.probe)
    && forall d :: d in s.probe.calls && d < |cfg.ips| ==> s.probe.calls[d].ip == cfg.ips[d]
  }

  lemma TargetKeepsTold(cfg: Config, s: State, a: Action)
    requires Inv(cfg, s) && Enabled(cfg, s, a) && CallsTold(cfg, s)
    requires a.CallTarget? || a.LockGranted? || a.ProbeReply?
    ensures CallsTold(cfg, Apply(cfg, s, a))
  {
    assert CallMatches(cfg, s, a.d);
    var pa := ProbeAction(cfg, a);
    TargetCallStep(cfg.probe, s.probe, pa, cfg.ips[a.d]);
    C.StepKeepsGivenUp(cfg.probe, s.probe, pa);
    assert Apply(cfg, s, a).probe == P.Apply(cfg.probe, s.probe, pa);
  }

  lemma AbortKeepsTold(cfg: Config, s: State, a: Action)
    requires Inv(cfg, s) && Enabled(cfg, s, a) && CallsTold(cfg, s)
    requires a.EngineCrash? || a.HardTimeout?
    ensures CallsTold(cfg, Apply(cfg, s, a))
  {
    assert CallMatches(cfg, s, a.d);
    if s.devs[a.d].InTarget? {
      C.StepKeepsGivenUp(cfg.probe, s.probe, P.Abort(a.d));
      assert Apply(cfg, s, a).probe == P.Apply(cfg.probe, s.probe, P.Abort(a.d));
    } else {
      assert Apply(cfg, s, a).probe == s.probe;
    }
  }

  lemma StepKeepsTold(cfg: Config, s: State, a: Action)
    requires Inv(cfg, s) && Enabled(cfg, s, a) && CallsTold(cfg, s)
    ensures CallsTold(cfg, Apply(cfg, s, a))
  {
    if a.CallTarget? || a.LockGranted? || a.ProbeReply? {
      TargetKeepsTold(cfg, s, a);
    } else if a.EngineCrash? || a.HardTimeout? {
      AbortKeepsTold(cfg, s, a);
    } else if a.Tick? {
      C.StepKeepsGivenUp(cfg.probe, s.probe, P.Tick(a.elapsed));
    } else {
      assert Apply(cfg, s, a).probe == s.probe;
    }
  }

  lemma {:induction false} RunKeepsTold(cfg: Config, s: State, run: seq<Action>)
    requires Inv(cfg, s) && Executable(cfg, s, run) && CallsTold(cfg, s)
    ensures CallsTold(cfg, After(cfg, s, run))
    decreases |run|
  {
    if run != [] {
      StepKeepsTold(cfg, s, run[0]);
      StepKeepsInv(cfg, s, run[0]);
      RunKeepsTold(cfg, Apply(cfg, s, run[0]), run[1..]);
    }
  }

  /** A device whose `get_target` call ended unreachable has had its IP probed with every configured community. */
  lemma UnreachableTried(cfg: Config, init: State, run: seq<Action>, d: Dev)
    requires IsInit(cfg, init) && Executable(cfg, init, run) && d < |cfg.ips|
    requires TargetUnreachable(After(cfg, init, run), d)
    ensures forall community :: community in cfg.probe.communities ==>
      P.Tried(After(cfg, init, run).probe.log, cfg.ips[d], community)
  {
    InitInv(cfg, init);
    RoundTheorems.RunKeepsInv(cfg, init, run);
    RunKeepsTold(cfg, init, run);
    var log := After(cfg, init, run).probe.log;
    var t :| P.CampaignFailed(cfg.ips[d], t) in log;
    forall community | community in cfg.probe.communities ensures P.Tried(log, cfg.ips[d], community) {
      var i :| 0 <= i < |cfg.probe.communities| && cfg.probe.communities[i] == community;
    }
  }
}
