/**
 What the end of a `get_target` call says of the probes that were sent, over every run of the
 protocol: a target was answered to by the community asked last, and an unreachable IP has had all
 communities asked, one after the other, by this call or by the one that started the cooldown.
 */
module CallOutcomes {
  import opened ProbeProtocol

  predicate Running(s: State, c: Cid) {
    c !in s.calls || !s.calls[c].pc.Done?
  }

  predicate Ended(s: State, c: Cid) {
    c in s.calls && s.calls[c].pc.Done?
  }

  /** A campaign for the IP failed less than a TTL ago. */
  ghost predicate FailedRecently(cfg: Config, s: State, ip: Ip) {
    exists t :: CampaignFailed(ip, t) in s.log && s.now < t + cfg.ttl
  }

  /** Why a call for `ip` ends as it does in a step from `s` to `s'`. */
  ghost predicate EndJustified(cfg: Config, s: State, s': State, ip: Ip, outcome: Outcome) {
    match outcome
    case Target(m) =>
      || (HasAnswered(s.log, ip, m) && s'.log == s.log)
      || (EndsWith(Asks(s.log, ip), [m]) && s'.log == s.log + [Answered(ip, m, s.now)])
    case Unreachable =>
      || (FailedRecently(cfg, s, ip) && s'.log == s.log)
      || (EndsWith(Asks(s.log, ip), cfg.communities) && s'.log == s.log + [CampaignFailed(ip, s.now)])
    case Aborted => s'.log == s.log
  }

  /** Another call for the IP is at work. */
  ghost predicate OtherAtWork(s: State, c: Cid, ip: Ip) {
    exists d :: d != c && d in s.calls && s.calls[d].ip == ip && !s.calls[d].pc.Done?
  }

  /** Whatever a step does to its call: end it for a reason, send its next probe, or park it behind another call. */
  ghost predicate CallAccounted(cfg: Config, s: State, s': State, c: Cid, ip: Ip) {
    && c in s'.calls && s'.calls[c].ip == ip
    && match s'.calls[c].pc
       case Done(outcome) => EndJustified(cfg, s, s', ip, outcome)
       case Probing(k) => k < |cfg.communities| && s'.log == s.log + [ProbeSent(ip, cfg.communities[k], s.now)]
       case Waiting => s'.log == s.log && OtherAtWork(s, c, ip)
  }

  /** What decides the end of the call: a non-empty reply, or what is known of the IP. */
  ghost predicate EndsWhenItMust(cfg: Config, s: State, s': State, a: Action, c: Cid, ip: Ip) {
    && (a == Reply(c, true) || (!a.Abort? && ip in s.community) <==>
         Ended(s', c) && s'.calls[c].pc.outcome.Target?)
    && (!a.Abort? && FailedRecently(cfg, s, ip) ==> Ended(s', c) && s'.calls[c].pc.outcome.Unreachable?)
    && (a.Abort? <==> Ended(s', c) && s'.calls[c].pc.outcome.Aborted?)
  }

  function IpOf(s: State, a: Action): Ip
    requires Enabled(s, a) && !a.Tick?
  {
    if a.Enter? then a.ip else s.calls[a.c].ip
  }

  lemma CoolingIffRecent(cfg: Config, s: State, ip: Ip)
    requires Inv(cfg, s)
    ensures Cooling(s, ip) <==> FailedRecently(cfg, s, ip)
  {
    if Cooling(s, ip) { assert CampaignFailed(ip, s.negative[ip] - cfg.ttl) in s.log; }
  }

  lemma LockedAccounted(cfg: Config, s: State, c: Cid, ip: Ip)
    requires Inv(cfg, s) && ip !in s.holder
    ensures var s' := Locked(cfg, s, c, ip);
      && CallAccounted(cfg, s, s', c, ip)
      && (ip in s.community <==> s'.calls[c].pc.Done? && s'.calls[c].pc.outcome.Target?)
      && (Cooling(s, ip) ==> s'.calls[c].pc == Done(Unreachable))
      && (Ended(s', c) ==> !s'.calls[c].pc.outcome.Aborted?)
  {
    CoolingIffRecent(cfg, s, ip);
    if ip !in s.community && !Cooling(s, ip) && cfg.communities == [] {
      assert EndsWith(Asks(s.log, ip), cfg.communities);
    }
  }

  lemma EnterAccounted(cfg: Config, s: State, c: Cid, ip: Ip)
    requires Inv(cfg, s) && Enabled(s, Enter(c, ip))
    ensures var s' := Apply(cfg, s, Enter(c, ip));
      CallAccounted(cfg, s, s', c, ip) && EndsWhenItMust(cfg, s, s', Enter(c, ip), c, ip)
  {
    CoolingIffRecent(cfg, s, ip);
    if ip !in s.community && !Cooling(s, ip) {
      if ip in s.holder || SomeoneWaits(s, ip) {
        var d :| d in s.calls && s.calls[d].ip == ip && !s.calls[d].pc.Done?;
        assert OtherAtWork(s, c, ip);
      } else {
        assert Apply(cfg, s, Enter(c, ip)) == SendProbe(cfg, s.(negative := s.negative - {ip}), c, ip, 0);
        if cfg.communities == [] { assert EndsWith(Asks(s.log, ip), cfg.communities); }
      }
    }
  }

  /** The community asked last by a running campaign, and the ones before it. */
  lemma AskedSoFar(cfg: Config, s: State, c: Cid)
    requires Inv(cfg, s) && c in s.calls && s.calls[c].pc.Probing?
    ensures var asks, k := Asks(s.log, s.calls[c].ip), s.calls[c].pc.k;
      && k < |cfg.communities| && EndsWith(asks, [cfg.communities[k]])
      && (k + 1 == |cfg.communities| ==> EndsWith(asks, cfg.communities))
  {
    var asks, k := Asks(s.log, s.calls[c].ip), s.calls[c].pc.k;
    var asked := cfg.communities[..k + 1];
    assert EndsWith(asks, asked);
    assert asks[|asks| - 1] == asked[k];
    if k + 1 == |cfg.communities| { assert asked == cfg.communities; }
  }

  lemma AnswerAccounted(cfg: Config, s: State, c: Cid)
    requires Inv(cfg, s) && Enabled(s, Reply(c, true))
    ensures var s', ip := Apply(cfg, s, Reply(c, true)), s.calls[c].ip;
      CallAccounted(cfg, s, s', c, ip) && EndsWhenItMust(cfg, s, s', Reply(c, true), c, ip)
  {
    AskedSoFar(cfg, s, c);
    CoolingIffRecent(cfg, s, s.calls[c].ip);
  }

  lemma SilenceAccounted(cfg: Config, s: State, c: Cid)
    requires Inv(cfg, s) && Enabled(s, Reply(c, false))
    ensures var s', ip := Apply(cfg, s, Reply(c, false)), s.calls[c].ip;
      CallAccounted(cfg, s, s', c, ip) && EndsWhenItMust(cfg, s, s', Reply(c, false), c, ip)
  {
    AskedSoFar(cfg, s, c);
    CoolingIffRecent(cfg, s, s.calls[c].ip);
  }

  /** Every step of a call is accounted for. */
  lemma StepAccounted(cfg: Config, s: State, a: Action)
    requires Inv(cfg, s) && Enabled(s, a) && !a.Tick?
    ensures var s', ip := Apply(cfg, s, a), IpOf(s, a);
      CallAccounted(cfg, s, s', a.c, ip) && EndsWhenItMust(cfg, s, s', a, a.c, ip)
  {
    match a
    case Enter(c, ip) => EnterAccounted(cfg, s, c, ip);
    case Wake(c) =>
      LockedAccounted(cfg, s, c, s.calls[c].ip);
      CoolingIffRecent(cfg, s, s.calls[c].ip);
    case Reply(c, nonEmpty) => if nonEmpty { AnswerAccounted(cfg, s, c); } else { SilenceAccounted(cfg, s, c); }
    case Abort(c) =>
  }

  // ---- Over runs ----

  /** The last step of a run. */
  lemma {:induction false} LastStep(cfg: Config, s: State, run: seq<Action>)
    requires Executable(cfg, s, run) && run != []
    ensures var front, a := run[..|run| - 1], run[|run| - 1];
      Executable(cfg, s, front) && Enabled(After(cfg, s, front), a)
        && After(cfg, s, run) == Apply(cfg, After(cfg, s, front), a)
    decreases |run|
  {
    if |run| > 1 {
      LastStep(cfg, Apply(cfg, s, run[0]), run[1..]);
      assert run[1..][..|run| - 2] == run[..|run| - 1][1..];
    } else {
      assert run[..0] == [] && run[1..] == [];
    }
  }

  /** Over every run, each step of a call ends it for a reason, sends its next probe, or parks it behind another one. */
  lemma EveryStepAccounted(cfg: Config, run: seq<Action>, a: Action)
    requires Executable(cfg, INIT, run) && Enabled(After(cfg, INIT, run), a) && !a.Tick?
    ensures Executable(cfg, INIT, run + [a])
    ensures var s, s' := After(cfg, INIT, run), After(cfg, INIT, run + [a]);
      CallAccounted(cfg, s, s', a.c, IpOf(s, a)) && EndsWhenItMust(cfg, s, s', a, a.c, IpOf(s, a))
  {
    RunKeepsInv(cfg, INIT, run);
    AfterNext(cfg, INIT, run, a);
    StepAccounted(cfg, After(cfg, INIT, run), a);
  }

  /** A step changes its own call only, and that one has not ended before. */
  lemma OwnCallOnly(cfg: Config, s: State, a: Action)
    requires Inv(cfg, s) && Enabled(s, a) && !a.Tick?
    ensures var s' := Apply(cfg, s, a); a.c in s'.calls && s'.calls == s.calls[a.c := s'.calls[a.c]]
    ensures Running(s, a.c)
  {
    match a
    case Enter(c, ip) => EnterMovesCall(cfg, s, c, ip);
    case Wake(c) => LockedMovesCall(cfg, s, c, s.calls[c].ip);
    case Reply(c, nonEmpty) => ReplyMovesCall(cfg, s, c, nonEmpty);
    case Abort(c) =>
  }

  /** An ended call stays as it is; a call ends in a step of its own. */
  lemma EndedStays(cfg: Config, s: State, a: Action, c: Cid)
    requires Inv(cfg, s) && Enabled(s, a) && Ended(Apply(cfg, s, a), c)
    ensures if Ended(s, c) then Apply(cfg, s, a).calls[c] == s.calls[c] else !a.Tick? && a.c == c
  {
    if !a.Tick? { OwnCallOnly(cfg, s, a); }
  }

  lemma EndsHere(cfg: Config, s: State, a: Action, c: Cid)
    requires Inv(cfg, s) && Enabled(s, a) && Running(s, c) && Ended(Apply(cfg, s, a), c)
    ensures var s' := Apply(cfg, s, a);
      EndJustified(cfg, s, s', s'.calls[c].ip, s'.calls[c].pc.outcome)
  {
    EndedStays(cfg, s, a, c);
    StepAccounted(cfg, s, a);
  }

  ghost predicate EndedAt(cfg: Config, run: seq<Action>, n: nat, c: Cid, end: Call) {
    && n < |run| && Executable(cfg, INIT, run[..n]) && Executable(cfg, INIT, run[..n + 1])
    && var s, s' := After(cfg, INIT, run[..n]), After(cfg, INIT, run[..n + 1]);
       && Running(s, c) && Ended(s', c) && s'.calls[c] == end
       && EndJustified(cfg, s, s', end.ip, end.pc.outcome)
  }

  /** The step at which an ended call ended, and why; it has stayed so since. */
  lemma {:induction false} WhenItEnded(cfg: Config, run: seq<Action>, c: Cid) returns (n: nat)
    requires Executable(cfg, INIT, run) && Ended(After(cfg, INIT, run), c)
    ensures EndedAt(cfg, run, n, c, After(cfg, INIT, run).calls[c])
    decreases |run|
  {
    var front, a := run[..|run| - 1], run[|run| - 1];
    LastStep(cfg, INIT, run);
    RunKeepsInv(cfg, INIT, front);
    var s := After(cfg, INIT, front);
    if Ended(s, c) {
      EndedStays(cfg, s, a, c);
      n := WhenItEnded(cfg, front, c);
      assert front[..n] == run[..n] && front[..n + 1] == run[..n + 1];
    } else {
      EndsHere(cfg, s, a, c);
      n := |front|;
      assert run[..n + 1] == run;
    }
  }

  // ---- Unreachable means tried ----

  /** Behind every call that ended unreachable there is a failed campaign. */
  ghost predicate GivenUp(s: State) {
    forall c :: c in s.calls && s.calls[c].pc == Done(Unreachable) ==> HasFailed(s.log, s.calls[c].ip)
  }

  ghost predicate HasFailed(log: seq<Event>, ip: Ip) {
    exists t :: CampaignFailed(ip, t) in log
  }

  lemma FailedStays(cfg: Config, s: State, a: Action, ip: Ip)
    requires Inv(cfg, s) && Enabled(s, a) && HasFailed(s.log, ip)
    ensures HasFailed(Apply(cfg, s, a).log, ip)
  {
    StepLog(cfg, s, a);
    var t :| CampaignFailed(ip, t) in s.log;
    assert CampaignFailed(ip, t) in Apply(cfg, s, a).log;
  }

  lemma StepKeepsGivenUp(cfg: Config, s: State, a: Action)
    requires Inv(cfg, s) && Enabled(s, a) && GivenUp(s)
    ensures GivenUp(Apply(cfg, s, a))
  {
    var s' := Apply(cfg, s, a);
    forall c | c in s'.calls && s'.calls[c].pc == Done(Unreachable) ensures HasFailed(s'.log, s'.calls[c].ip) {
      if Ended(s, c) {
        EndedStays(cfg, s, a, c);
        FailedStays(cfg, s, a, s.calls[c].ip);
      } else {
        EndsHere(cfg, s, a, c);
        if s'.log != s.log { assert s'.log[|s.log|] == CampaignFailed(s'.calls[c].ip, s.now); }
      }
    }
  }

  lemma {:induction false} RunKeepsGivenUp(cfg: Config, s: State, run: seq<Action>)
    requires Inv(cfg, s) && GivenUp(s) && Executable(cfg, s, run)
    ensures GivenUp(After(cfg, s, run))
    decreases |run|
  {
    if run != [] {
      StepKeepsInv(cfg, s, run[0]);
      StepKeepsGivenUp(cfg, s, run[0]);
      RunKeepsGivenUp(cfg, Apply(cfg, s, run[0]), run[1..]);
    }
  }

  /**
   Over every run, a call that ended unreachable has a failed campaign of its IP in the log, and every
   configured community was tried.
   */
  lemma UnreachableAfterAllTried(cfg: Config, run: seq<Action>, c: Cid)
    requires Executable(cfg, INIT, run)
    requires var s := After(cfg, INIT, run); c in s.calls && s.calls[c].pc == Done(Unreachable)
    ensures var s := After(cfg, INIT, run);
      && (exists t :: CampaignFailed(s.calls[c].ip, t) in s.log)
      && forall community :: community in cfg.communities ==> Tried(s.log, s.calls[c].ip, community)
  {
    RunKeepsGivenUp(cfg, INIT, run);
    RunKeepsInv(cfg, INIT, run);
    var s := After(cfg, INIT, run);
    var ip := s.calls[c].ip;
    var t :| CampaignFailed(ip, t) in s.log;
    forall community | community in cfg.communities ensures Tried(s.log, ip, community) {
      var i :| 0 <= i < |cfg.communities| && cfg.communities[i] == community;
    }
  }
}
