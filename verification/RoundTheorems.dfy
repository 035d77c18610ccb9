/**
 What holds over every run of a collection round: it cannot get stuck, it ends after a bounded
 number of steps, it never runs more devices than slots, and known devices are never probed.
 */
module RoundTheorems {
  import P = ProbeProtocol
  import opened RoundProtocol

  lemma {:induction false} RunKeepsInv(cfg: Config, s: State, run: seq<Action>)
    requires Inv(cfg, s) && Executable(cfg, s, run)
    ensures Inv(cfg, After(cfg, s, run))
    decreases |run|
  {
    if run != [] {
      StepKeepsInv(cfg, s, run[0]);
      RunKeepsInv(cfg, Apply(cfg, s, run[0]), run[1..]);
    }
  }

  ghost predicate AllFinished(s: State) {
    forall d :: 0 <= d < |s.devs| ==> s.devs[d].Finished?
  }

  // ---- Deadlock freedom ----

  /** A step that is neither the clock, nor a timeout, nor a failure. */
  predicate Ordinary(a: Action) {
    !a.Tick? && !a.HardTimeout? && !a.EngineCrash? && !a.SaveDeadlock?
  }

  /** A device with a slot either can move itself or waits for a lock whose holder can move. */
  lemma SlotHolderProgress(cfg: Config, s: State, d: Dev) returns (a: Action)
    requires Inv(cfg, s) && d < |s.devs| && HoldsSlot(s.devs[d])
    ensures Ordinary(a) && Enabled(cfg, s, a)
  {
    assert CallMatches(cfg, s, d);
    match s.devs[d]
    case InSlot => a := CallTarget(d);
    case Collecting(_, _) => a := CollectorDone(d, true);
    case InTarget =>
      var ip := cfg.ips[d];
      if s.probe.calls[d].pc.Probing? {
        a := ProbeReply(d, true);
      } else if ip !in s.probe.holder {
        a := LockGranted(d);
      } else {
        // the holder of the lock is a device of this round, inside `get_target`, with a slot
        var h := s.probe.holder[ip];
        assert h in s.probe.calls && s.probe.calls[h].pc.Probing?;
        assert CallMatches(cfg, s, h);
        a := ProbeReply(h, true);
      }
  }

  lemma ActiveProgress(cfg: Config, s: State, d: Dev) returns (a: Action)
    requires Inv(cfg, s) && d < |s.devs| && !s.devs[d].Finished? && !s.devs[d].Idle?
    ensures Ordinary(a) && Enabled(cfg, s, a)
  {
    if s.devs[d].Saving? {
      a := Saved(d);
    } else if HoldsSlot(s.devs[d]) {
      a := SlotHolderProgress(cfg, s, d);
    } else if s.free > 0 {
      a := TakeSlot(d);
    } else {
      var h :| h in Holders(s.devs);
      a := SlotHolderProgress(cfg, s, h);
    }
  }

  /** No deadlock: an unfinished round always has an ordinary step to take. */
  lemma NoDeadlock(cfg: Config, init: State, run: seq<Action>) returns (a: Action)
    requires IsInit(cfg, init) && Executable(cfg, init, run)
    requires !AllFinished(After(cfg, init, run))
    ensures Ordinary(a) && Enabled(cfg, After(cfg, init, run), a)
  {
    InitInv(cfg, init);
    RunKeepsInv(cfg, init, run);
    var s := After(cfg, init, run);
    var d :| 0 <= d < |s.devs| && !s.devs[d].Finished?;
    if !s.devs[d].Idle? {
      a := ActiveProgress(cfg, s, d);
    } else if d in cfg.known || PhaseOneOver(cfg, s) {
      a := Start(d);
    } else {
      var k :| k in cfg.known && k < |s.devs| && !s.devs[k].Finished?;
      if s.devs[k].Idle? {
        a := Start(k);
      } else {
        a := ActiveProgress(cfg, s, k);
      }
    }
  }

  // ---- Termination ----

  /** An upper bound on the steps a device still takes. */
  function Weight(cfg: Config, s: State, d: Dev): nat
    requires d < |s.devs|
  {
    var probes, collectors := |cfg.probe.communities|, cfg.collectors;
    match s.devs[d]
    case Idle => collectors + probes + 9
    case WaitSlot => collectors + probes + 8
    case InSlot => collectors + probes + 7
    case InTarget => collectors + 5 + (if d in s.probe.calls then P.Rank(cfg.probe, s.probe.calls[d].pc) else 0)
    case Collecting(left, _) => 4 + left
    case Saving(_, attempt) => if attempt <= MAX_SAVE_RETRIES then 3 - attempt else 1
    case Finished(_) => 0
  }

  function TotalWeight(cfg: Config, s: State, n: nat): nat
    requires n <= |s.devs|
  {
    if n == 0 then 0 else TotalWeight(cfg, s, n - 1) + Weight(cfg, s, n - 1)
  }

  lemma {:induction false} TotalDrops(cfg: Config, s: State, s': State, d: Dev, n: nat)
    requires n <= |s.devs| == |s'.devs|
    requires forall e :: 0 <= e < |s.devs| && e != d ==> Weight(cfg, s', e) == Weight(cfg, s, e)
    requires d < |s.devs| ==> Weight(cfg, s', d) < Weight(cfg, s, d)
    ensures TotalWeight(cfg, s', n) <= TotalWeight(cfg, s, n) - (if d < n then 1 else 0)
  {
    if n > 0 { TotalDrops(cfg, s, s', d, n - 1); }
  }

  lemma AfterTargetDrops(cfg: Config, s: State, probe: P.State, d: Dev, bound: int)
    requires d < |s.devs| == |cfg.ips| && (s.devs[d].InSlot? || s.devs[d].InTarget?)
    requires P.CallMoved(cfg.probe, s.probe, probe, d, cfg.ips[d], bound)
      && cfg.collectors + 5 + bound <= Weight(cfg, s, d)
    ensures var s' := AfterTarget(cfg, s.(probe := probe), d);
      && Weight(cfg, s', d) < Weight(cfg, s, d)
      && forall e :: 0 <= e < |s.devs| && e != d ==> Weight(cfg, s', e) == Weight(cfg, s, e)
  {
  }

  lemma TargetWeightDrops(cfg: Config, s: State, a: Action)
    requires Inv(cfg, s) && (a.CallTarget? || a.LockGranted? || a.ProbeReply?) && Enabled(cfg, s, a)
    ensures Weight(cfg, Apply(cfg, s, a), a.d) < Weight(cfg, s, a.d)
    ensures forall e :: 0 <= e < |s.devs| && e != a.d ==> Weight(cfg, Apply(cfg, s, a), e) == Weight(cfg, s, e)
  {
    var d, pa := a.d, ProbeAction(cfg, a);
    assert CallMatches(cfg, s, d);
    TargetCallStep(cfg.probe, s.probe, pa, cfg.ips[d]);
    var bound := if pa.Enter? then |cfg.probe.communities| + 2 else P.Rank(cfg.probe, s.probe.calls[d].pc);
    AfterTargetDrops(cfg, s, P.Apply(cfg.probe, s.probe, pa), d, bound);
  }

  lemma AbortKeepsOthers(cfg: Config, s: State, a: Action, e: nat)
    requires |s.devs| == |cfg.ips| == |cfg.vendorOk| && Enabled(cfg, s, a) && (a.EngineCrash? || a.HardTimeout?)
    requires e < |s.devs| && e != a.d && (a.EngineCrash? ==> P.Enabled(s.probe, P.Abort(a.d)))
    ensures Weight(cfg, Apply(cfg, s, a), e) == Weight(cfg, s, e)
  {
    if P.Enabled(s.probe, P.Abort(a.d)) { AbortedCall(cfg.probe, s.probe, a.d); }
    assert Apply(cfg, s, a).devs[e] == s.devs[e];
  }

  lemma AbortWeightDrops(cfg: Config, s: State, a: Action)
    requires Inv(cfg, s) && (a.EngineCrash? || a.HardTimeout?) && Enabled(cfg, s, a)
    ensures Weight(cfg, Apply(cfg, s, a), a.d) < Weight(cfg, s, a.d)
    ensures forall e :: 0 <= e < |s.devs| && e != a.d ==> Weight(cfg, Apply(cfg, s, a), e) == Weight(cfg, s, e)
  {
    assert CallMatches(cfg, s, a.d);
    forall e | 0 <= e < |s.devs| && e != a.d ensures Weight(cfg, Apply(cfg, s, a), e) == Weight(cfg, s, e) {
      AbortKeepsOthers(cfg, s, a, e);
    }
  }

  lemma DeviceWeightDrops(cfg: Config, s: State, a: Action)
    requires Inv(cfg, s) && Enabled(cfg, s, a)
    requires a.Start? || a.TakeSlot? || a.CollectorDone? || a.Saved? || a.SaveDeadlock?
    ensures Weight(cfg, Apply(cfg, s, a), a.d) < Weight(cfg, s, a.d)
  {
    assert CallMatches(cfg, s, a.d);
  }

  lemma OthersKeepWeight(cfg: Config, s: State, a: Action, e: nat)
    requires |s.devs| == |cfg.ips| == |cfg.vendorOk| && Enabled(cfg, s, a)
    requires a.Start? || a.TakeSlot? || a.CollectorDone? || a.Saved? || a.SaveDeadlock?
    requires e < |s.devs| && e != a.d
    ensures Weight(cfg, Apply(cfg, s, a), e) == Weight(cfg, s, e)
  {
    assert Apply(cfg, s, a).probe == s.probe;
    assert Apply(cfg, s, a).devs[e] == s.devs[e];
  }

  /** Every step but the clock brings the round closer to its end. */
  lemma StepDrops(cfg: Config, s: State, a: Action)
    requires Inv(cfg, s) && Enabled(cfg, s, a)
    ensures TotalWeight(cfg, Apply(cfg, s, a), |s.devs|) <= TotalWeight(cfg, s, |s.devs|) - (if a.Tick? then 0 else 1)
  {
    if a.Tick? {
      TickWeight(cfg, s, a, |s.devs|);
    } else {
      if a.CallTarget? || a.LockGranted? || a.ProbeReply? {
        TargetWeightDrops(cfg, s, a);
      } else if a.EngineCrash? || a.HardTimeout? {
        AbortWeightDrops(cfg, s, a);
      } else {
        DeviceWeightDrops(cfg, s, a);
        forall e: nat | e < |s.devs| && e != a.d { OthersKeepWeight(cfg, s, a, e); }
      }
      TotalDrops(cfg, s, Apply(cfg, s, a), a.d, |s.devs|);
    }
  }

  lemma {:induction false} TickWeight(cfg: Config, s: State, a: Action, n: nat)
    requires Inv(cfg, s) && a.Tick? && n <= |s.devs|
    ensures TotalWeight(cfg, Apply(cfg, s, a), n) == TotalWeight(cfg, s, n)
  {
    if n > 0 { TickWeight(cfg, s, a, n - 1); }
  }

  function Moves(run: seq<Action>): nat {
    if run == [] then 0 else (if run[0].Tick? then 0 else 1) + Moves(run[1..])
  }

  lemma {:induction false} MovesBounded(cfg: Config, s: State, run: seq<Action>)
    requires Inv(cfg, s) && Executable(cfg, s, run)
    ensures Moves(run) + TotalWeight(cfg, After(cfg, s, run), |s.devs|) <= TotalWeight(cfg, s, |s.devs|)
    decreases |run|
  {
    if run != [] {
      StepKeepsInv(cfg, s, run[0]);
      StepDrops(cfg, s, run[0]);
      MovesBounded(cfg, Apply(cfg, s, run[0]), run[1..]);
    }
  }

  lemma {:induction false} InitWeight(cfg: Config, s: State, n: nat)
    requires IsInit(cfg, s) && n <= |s.devs|
    ensures TotalWeight(cfg, s, n) == n * (cfg.collectors + |cfg.probe.communities| + 9)
  {
    if n > 0 {
      InitWeight(cfg, s, n - 1);
      assert n * (cfg.collectors + |cfg.probe.communities| + 9)
          == (n - 1) * (cfg.collectors + |cfg.probe.communities| + 9) + (cfg.collectors + |cfg.probe.communities| + 9);
    }
  }

  /** A round ends: in any run each device accounts for at most collectors + communities + 9 steps. */
  lemma RoundTerminates(cfg: Config, init: State, run: seq<Action>)
    requires IsInit(cfg, init) && Executable(cfg, init, run)
    ensures Moves(run) <= |cfg.ips| * (cfg.collectors + |cfg.probe.communities| + 9)
  {
    InitInv(cfg, init);
    MovesBounded(cfg, init, run);
    InitWeight(cfg, init, |init.devs|);
  }

  // ---- Safety ----

  lemma LockImpliesSlot(cfg: Config, s: State, ip: P.Ip)
    requires Inv(cfg, s) && ip in s.probe.holder
    ensures s.probe.holder[ip] in Holders(s.devs)
  {
    assert CallMatches(cfg, s, s.probe.holder[ip]);
  }

  /** Whoever holds the probe lock of an IP holds a semaphore slot as well. */
  lemma LockHolderHasSlot(cfg: Config, init: State, run: seq<Action>, ip: P.Ip)
    requires IsInit(cfg, init) && Executable(cfg, init, run)
    requires ip in After(cfg, init, run).probe.holder
    ensures After(cfg, init, run).probe.holder[ip] in Holders(After(cfg, init, run).devs)
  {
    InitInv(cfg, init);
    RunKeepsInv(cfg, init, run);
    LockImpliesSlot(cfg, After(cfg, init, run), ip);
  }

  /** Never more devices inside the semaphore than slots; when the round is over all slots and locks are free. */
  lemma SlotsRespected(cfg: Config, init: State, run: seq<Action>)
    requires IsInit(cfg, init) && Executable(cfg, init, run)
    ensures var s := After(cfg, init, run);
      && |Holders(s.devs)| + s.free == cfg.slots
      && (AllFinished(s) ==> s.free == cfg.slots && s.probe.holder == map[])
  {
    InitInv(cfg, init);
    RunKeepsInv(cfg, init, run);
    var s := After(cfg, init, run);
    if AllFinished(s) {
      assert Holders(s.devs) == {};
      forall ip | ip in s.probe.holder ensures s.probe.holder[ip] in Holders(s.devs) {
        LockImpliesSlot(cfg, s, ip);
      }
    }
  }

  /** Phase 1 is finished before any device of phase 2 moves, and its devices never wait for a probe. */
  lemma KnownDevicesFirst(cfg: Config, init: State, run: seq<Action>, d: Dev, e: Dev)
    requires IsInit(cfg, init) && Executable(cfg, init, run)
    requires d in cfg.known && d < |cfg.ips| && e < |cfg.ips| && e !in cfg.known
    ensures var s := After(cfg, init, run);
      !s.devs[d].InTarget? && (s.devs[e].Idle? || s.devs[d].Finished?)
  {
    InitInv(cfg, init);
    RunKeepsInv(cfg, init, run);
  }

  /** The probing protocol keeps its invariant through whole rounds, and so from round to round. */
  lemma NextRoundMayStart(cfg: Config, init: State, run: seq<Action>)
    requires IsInit(cfg, init) && Executable(cfg, init, run) && AllFinished(After(cfg, init, run))
    ensures P.Inv(cfg.probe, After(cfg, init, run).probe.(calls := map[]))
  {
    SlotsRespected(cfg, init, run);
    InitInv(cfg, init);
    RunKeepsInv(cfg, init, run);
  }
}
