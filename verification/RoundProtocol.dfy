/**
 One collection round of app/snmp/collection_coordinator.py as a step system over the probing
 protocol: one coroutine per device, a semaphore of `slots`, two phases (devices with a known
 community first), a hard timeout around the SNMP work of a device, and a database write after it.
 Several devices may share an IP.
 */
module RoundProtocol {
  import P = ProbeProtocol

  type Dev = nat     // position in the round's device list

  datatype Config = Config(
    probe: P.Config,
    ips: seq<P.Ip>,
    vendorOk: seq<bool>,       // whether the device type is recognised
    collectors: nat,
    slots: nat,
    known: set<Dev>)           // the devices of phase 1

  datatype Status = Good | Unreachable | Partial | Crashed

  datatype Pc =
    | Idle
    | WaitSlot
    | InSlot                                          // holds a slot, `get_target` not yet called
    | InTarget                                        // holds a slot, inside `get_target`
    | Collecting(left: nat, allOk: bool)              // holds a slot, `left` collectors running
    | Saving(status: Status, attempt: nat)
    | Finished(status: Status)

  datatype State = State(probe: P.State, free: nat, devs: seq<Pc>)

  datatype Action =
    | Start(d: Dev)
    | TakeSlot(d: Dev)
    | CallTarget(d: Dev)
    | LockGranted(d: Dev)
    | ProbeReply(d: Dev, nonEmpty: bool)
    | EngineCrash(d: Dev)                             // an exception that is not an SNMP error
    | CollectorDone(d: Dev, ok: bool)
    | HardTimeout(d: Dev)
    | Saved(d: Dev)                                   // committed, or given up and logged
    | SaveDeadlock(d: Dev)
    | Tick(elapsed: nat)

  const MAX_SAVE_RETRIES := 2

  predicate Valid(cfg: Config) {
    && |cfg.vendorOk| == |cfg.ips|
    && cfg.collectors >= 1 && cfg.slots >= 1
    && forall d :: d in cfg.known ==> d < |cfg.ips|
  }

  predicate HoldsSlot(pc: Pc) {
    pc.InSlot? || pc.InTarget? || pc.Collecting?
  }

  predicate PhaseOneOver(cfg: Config, s: State) {
    forall d :: d in cfg.known && d < |s.devs| ==> s.devs[d].Finished?
  }

  predicate Enabled(cfg: Config, s: State, a: Action)
    requires |s.devs| == |cfg.ips| == |cfg.vendorOk|
  {
    match a
    case Start(d) => d < |s.devs| && s.devs[d].Idle? && (d in cfg.known || PhaseOneOver(cfg, s))
    case TakeSlot(d) => d < |s.devs| && s.devs[d].WaitSlot? && s.free > 0
    case CallTarget(d) => d < |s.devs| && s.devs[d].InSlot? && P.Enabled(s.probe, P.Enter(d, cfg.ips[d]))
    case LockGranted(d) => d < |s.devs| && s.devs[d].InTarget? && P.Enabled(s.probe, P.Wake(d))
    case ProbeReply(d, b) => d < |s.devs| && s.devs[d].InTarget? && P.Enabled(s.probe, P.Reply(d, b))
    case EngineCrash(d) => d < |s.devs| && s.devs[d].InTarget? && P.Enabled(s.probe, P.Reply(d, false))
    case CollectorDone(d, _) => d < |s.devs| && s.devs[d].Collecting? && s.devs[d].left > 0
    case HardTimeout(d) => d < |s.devs| && HoldsSlot(s.devs[d])
        && (s.devs[d].InTarget? ==> P.Enabled(s.probe, P.Abort(d)))
    case Saved(d) => d < |s.devs| && s.devs[d].Saving?
    case SaveDeadlock(d) => d < |s.devs| && s.devs[d].Saving? && s.devs[d].attempt < MAX_SAVE_RETRIES
    case Tick(_) => true
  }

  /** Leaving the semaphore. */
  function Leave(s: State, d: Dev, pc: Pc): State
    requires d < |s.devs|
  {
    s.(free := s.free + 1, devs := s.devs[d := pc])
  }

  /** Continues a device after a step of its `get_target` call. */
  function AfterTarget(cfg: Config, s: State, d: Dev): State
    requires d < |s.devs| && d in s.probe.calls
  {
    match s.probe.calls[d].pc
    case Done(Target(_)) => s.(devs := s.devs[d := Collecting(cfg.collectors, true)])
    case Done(_) => Leave(s, d, Saving(Unreachable, 0))
    case _ => s.(devs := s.devs[d := InTarget])
  }

  function ProbeAction(cfg: Config, a: Action): P.Action
    requires a.CallTarget? || a.LockGranted? || a.ProbeReply?
    requires a.CallTarget? ==> a.d < |cfg.ips|
  {
    match a
    case CallTarget(d) => P.Enter(d, cfg.ips[d])
    case LockGranted(d) => P.Wake(d)
    case ProbeReply(d, b) => P.Reply(d, b)
  }

  function Apply(cfg: Config, s: State, a: Action): (r: State)
    requires |s.devs| == |cfg.ips| == |cfg.vendorOk| && Enabled(cfg, s, a)
    ensures |r.devs| == |s.devs|
  {
    match a
    case Start(d) =>
      if !cfg.vendorOk[d] then s.(devs := s.devs[d := Finished(Crashed)])
      else if P.Cooling(s.probe, cfg.ips[d]) then s.(devs := s.devs[d := Saving(Unreachable, 0)])
      else s.(devs := s.devs[d := WaitSlot])
    case TakeSlot(d) => s.(free := s.free - 1, devs := s.devs[d := InSlot])
    case CallTarget(d) => TargetStep(cfg, s, a)
    case LockGranted(d) => TargetStep(cfg, s, a)
    case ProbeReply(d, b) => TargetStep(cfg, s, a)
    case EngineCrash(d) =>
      Leave(s, d, Finished(Crashed)).(probe := P.Apply(cfg.probe, s.probe, P.Abort(d)))
    case CollectorDone(d, ok) =>
      var left, allOk := s.devs[d].left - 1, s.devs[d].allOk && ok;
      if left == 0 then Leave(s, d, Saving(if allOk then Good else Partial, 0))
      else s.(devs := s.devs[d := Collecting(left, allOk)])
    case HardTimeout(d) =>
      Leave(s, d, Saving(Unreachable, 0)).(
        probe := if s.devs[d].InTarget? then P.Apply(cfg.probe, s.probe, P.Abort(d)) else s.probe)
    case Saved(d) => s.(devs := s.devs[d := Finished(s.devs[d].status)])
    case SaveDeadlock(d) => s.(devs := s.devs[d := s.devs[d].(attempt := s.devs[d].attempt + 1)])
    case Tick(elapsed) => s.(probe := P.Apply(cfg.probe, s.probe, P.Tick(elapsed)))
  }

  function TargetStep(cfg: Config, s: State, a: Action): State
    requires |s.devs| == |cfg.ips|
    requires a.CallTarget? || a.LockGranted? || a.ProbeReply?
    requires a.d < |s.devs| && P.Enabled(s.probe, ProbeAction(cfg, a))
  {
    P.ActorStays(cfg.probe, s.probe, ProbeAction(cfg, a));
    AfterTarget(cfg, s.(probe := P.Apply(cfg.probe, s.probe, ProbeAction(cfg, a))), a.d)
  }

  /** A round starts with all devices idle; no `get_target` call is in flight. */
  ghost predicate IsInit(cfg: Config, s: State) {
    && Valid(cfg)
    && P.Inv(cfg.probe, s.probe) && s.probe.calls == map[]
    && s.free == cfg.slots
    && s.devs == seq(|cfg.ips|, i => Idle)
    && (forall d :: 0 <= d < |cfg.ips| ==> (d in cfg.known <==> cfg.ips[d] in s.probe.community))
  }

  ghost predicate Executable(cfg: Config, s: State, run: seq<Action>)
    decreases |run|
  {
    && |s.devs| == |cfg.ips| == |cfg.vendorOk|
    && (run == [] || (Enabled(cfg, s, run[0]) && Executable(cfg, Apply(cfg, s, run[0]), run[1..])))
  }

  ghost function After(cfg: Config, s: State, run: seq<Action>): (r: State)
    requires Executable(cfg, s, run)
    ensures |r.devs| == |cfg.ips| == |cfg.vendorOk|
    decreases |run|
  {
    if run == [] then s else After(cfg, Apply(cfg, s, run[0]), run[1..])
  }

  // ---- Invariant ----

  function Holders(devs: seq<Pc>): set<Dev> {
    set d | 0 <= d < |devs| && HoldsSlot(devs[d])
  }

  /** What a device's counter says about its `get_target` call. */
  ghost predicate CallMatches(cfg: Config, s: State, d: Dev)
    requires d < |s.devs| == |cfg.ips|
  {
    match s.devs[d]
    case InTarget => d in s.probe.calls && s.probe.calls[d].ip == cfg.ips[d] && !s.probe.calls[d].pc.Done?
    case Collecting(left, _) => 0 < left <= cfg.collectors && NoCallRunning(s, d)
    case Saving(_, attempt) => attempt <= MAX_SAVE_RETRIES && NoCallRunning(s, d)
    case Finished(_) => NoCallRunning(s, d)
    case _ => d !in s.probe.calls
  }

  predicate NoCallRunning(s: State, d: Dev) {
    d in s.probe.calls ==> s.probe.calls[d].pc.Done?
  }

  ghost predicate CallsMatch(cfg: Config, s: State)
    requires |s.devs| == |cfg.ips|
  {
    && (forall d :: 0 <= d < |s.devs| ==> CallMatches(cfg, s, d))
    && (forall c :: c in s.probe.calls ==> c < |s.devs|)
  }

  /** Known devices never probe, and nobody of phase 2 moves before phase 1 is over. */
  ghost predicate PhasesHold(cfg: Config, s: State)
    requires |s.devs| == |cfg.ips|
  {
    && (forall d :: d in cfg.known && d < |s.devs| ==> cfg.ips[d] in s.probe.community && !s.devs[d].InTarget?)
    && ((forall d :: 0 <= d < |s.devs| && d !in cfg.known ==> s.devs[d].Idle?) || PhaseOneOver(cfg, s))
  }

  ghost predicate Inv(cfg: Config, s: State) {
    && Valid(cfg) && |s.devs| == |cfg.ips|
    && P.Inv(cfg.probe, s.probe)
    && CallsMatch(cfg, s)
    && PhasesHold(cfg, s)
    && s.free + |Holders(s.devs)| == cfg.slots
  }

  lemma InitInv(cfg: Config, s: State)
    requires IsInit(cfg, s)
    ensures Inv(cfg, s)
  {
    assert Holders(s.devs) == {};
  }

  /** One device moves: the set of slot holders changes by at most that device. */
  lemma HoldersUpdate(devs: seq<Pc>, d: Dev, pc: Pc)
    requires d < |devs|
    ensures Holders(devs[d := pc]) == if HoldsSlot(pc) then Holders(devs) + {d} else Holders(devs) - {d}
  {
  }

  lemma TargetCallStep(cfg: P.Config, s: P.State, a: P.Action, ip: P.Ip)
    requires P.Inv(cfg, s) && P.Enabled(s, a)
    requires (a.Enter? && a.ip == ip) || ((a.Wake? || a.Reply?) && s.calls[a.c].ip == ip)
    ensures var s' := P.Apply(cfg, s, a);
      && P.Inv(cfg, s') && s.community.Keys <= s'.community.Keys
      && P.CallMoved(cfg, s, s', a.c, ip, if a.Enter? then |cfg.communities| + 2 else P.Rank(cfg, s.calls[a.c].pc))
  {
    P.StepKeepsInv(cfg, s, a);
    P.CommunityGrows(cfg, s, a);
    match a
    case Enter(c, _) => P.EnterMovesCall(cfg, s, c, ip);
    case Wake(c) => P.LockedMovesCall(cfg, s, c, ip);
    case Reply(c, b) => P.ReplyMovesCall(cfg, s, c, b);
  }

  lemma AbortStep(cfg: P.Config, s: P.State, d: Dev)
    requires P.Inv(cfg, s) && P.Enabled(s, P.Abort(d))
    ensures var s' := P.Apply(cfg, s, P.Abort(d));
      && P.Inv(cfg, s') && s'.community == s.community
      && s'.calls == s.calls[d := s'.calls[d]] && s'.calls[d].pc.Done?
  {
    P.StepKeepsInv(cfg, s, P.Abort(d));
  }

  /** An aborted call has ended; the other calls are as they were. */
  lemma AbortedCall(cfg: P.Config, s: P.State, d: Dev)
    requires P.Enabled(s, P.Abort(d))
    ensures var s' := P.Apply(cfg, s, P.Abort(d));
      s'.calls == s.calls[d := s'.calls[d]] && s'.calls[d].pc.Done?
  {
  }

  /** A step of device `d` that leaves the other devices and their calls alone. */
  ghost predicate OnlyMoves(s: State, s': State, d: Dev, pc: Pc)
    requires d < |s.devs|
  {
    && s'.devs == s.devs[d := pc]
    && (forall c :: c != d ==> (c in s'.probe.calls <==> c in s.probe.calls))
    && (forall c :: c != d && c in s.probe.calls && c in s'.probe.calls ==> s'.probe.calls[c] == s.probe.calls[c])
    && s.probe.community.Keys <= s'.probe.community.Keys
  }

  lemma MoveKeepsInv(cfg: Config, s: State, s': State, d: Dev, pc: Pc)
    requires Inv(cfg, s) && d < |s.devs| && OnlyMoves(s, s', d, pc)
    requires P.Inv(cfg.probe, s'.probe)
    requires CallMatches(cfg, s', d)
    requires d in cfg.known ==> !pc.InTarget?
    requires d !in cfg.known ==> pc.Idle? || PhaseOneOver(cfg, s)
    requires d in cfg.known && s.devs[d].Finished? ==> pc.Finished?
    requires s'.free + (if HoldsSlot(pc) then 1 else 0) == s.free + (if HoldsSlot(s.devs[d]) then 1 else 0)
    ensures Inv(cfg, s')
  {
    HoldersUpdate(s.devs, d, pc);
    assert d in Holders(s.devs) <==> HoldsSlot(s.devs[d]);
    forall e | 0 <= e < |s'.devs| ensures CallMatches(cfg, s', e) {
      if e != d { assert CallMatches(cfg, s, e); }
    }
  }

  /** The device moves on according to where its call now is. */
  lemma AfterTargetKeepsInv(cfg: Config, s: State, probe: P.State, d: Dev, bound: int)
    requires Inv(cfg, s) && d < |s.devs| && (s.devs[d].InSlot? || s.devs[d].InTarget?)
    requires P.Inv(cfg.probe, probe) && s.probe.community.Keys <= probe.community.Keys
    requires P.CallMoved(cfg.probe, s.probe, probe, d, cfg.ips[d], bound)
    ensures Inv(cfg, AfterTarget(cfg, s.(probe := probe), d))
  {
    var s' := AfterTarget(cfg, s.(probe := probe), d);
    MoveKeepsInv(cfg, s, s', d, s'.devs[d]);
  }

  lemma TargetStepKeepsInv(cfg: Config, s: State, a: Action)
    requires Inv(cfg, s) && (a.CallTarget? || a.LockGranted? || a.ProbeReply?) && Enabled(cfg, s, a)
    ensures Inv(cfg, Apply(cfg, s, a))
  {
    var d, pa := a.d, ProbeAction(cfg, a);
    assert CallMatches(cfg, s, d);
    TargetCallStep(cfg.probe, s.probe, pa, cfg.ips[d]);
    var bound := if pa.Enter? then |cfg.probe.communities| + 2 else P.Rank(cfg.probe, s.probe.calls[d].pc);
    AfterTargetKeepsInv(cfg, s, P.Apply(cfg.probe, s.probe, pa), d, bound);
  }

  lemma AbortKeepsInv(cfg: Config, s: State, a: Action)
    requires Inv(cfg, s) && (a.EngineCrash? || a.HardTimeout?) && Enabled(cfg, s, a)
    ensures Inv(cfg, Apply(cfg, s, a))
  {
    assert CallMatches(cfg, s, a.d);
    if s.devs[a.d].InTarget? { AbortStep(cfg.probe, s.probe, a.d); }
    var s' := Apply(cfg, s, a);
    MoveKeepsInv(cfg, s, s', a.d, s'.devs[a.d]);
  }

  lemma TickKeepsInv(cfg: Config, s: State, elapsed: nat)
    requires Inv(cfg, s)
    ensures Inv(cfg, Apply(cfg, s, Tick(elapsed)))
  {
    P.StepKeepsInv(cfg.probe, s.probe, P.Tick(elapsed));
    var s' := Apply(cfg, s, Tick(elapsed));
    forall d | 0 <= d < |s'.devs| ensures CallMatches(cfg, s', d) {
      assert CallMatches(cfg, s, d);
    }
  }

  lemma DeviceKeepsInv(cfg: Config, s: State, a: Action)
    requires Inv(cfg, s) && Enabled(cfg, s, a)
    requires a.Start? || a.TakeSlot? || a.CollectorDone? || a.Saved? || a.SaveDeadlock?
    ensures Inv(cfg, Apply(cfg, s, a))
  {
    assert CallMatches(cfg, s, a.d);
    var s' := Apply(cfg, s, a);
    MoveKeepsInv(cfg, s, s', a.d, s'.devs[a.d]);
  }

  /** Every step of a round keeps the invariant. */
  lemma StepKeepsInv(cfg: Config, s: State, a: Action)
    requires Inv(cfg, s) && Enabled(cfg, s, a)
    ensures Inv(cfg, Apply(cfg, s, a))
  {
    if a.Tick? {
      TickKeepsInv(cfg, s, a.elapsed);
    } else if a.CallTarget? || a.LockGranted? || a.ProbeReply? {
      TargetStepKeepsInv(cfg, s, a);
    } else if a.EngineCrash? || a.HardTimeout? {
      AbortKeepsInv(cfg, s, a);
    } else {
      DeviceKeepsInv(cfg, s, a);
    }
  }
}
