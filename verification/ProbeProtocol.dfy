/**
 The community-probing protocol of app/snmp/session_cache.py as a step system.

 Any number of coroutines call `get_target`; they share the community cache, the negative cache
 and one lock per IP.  A step is what one coroutine does between two awaits; the other steps are
 the passing of time and the death of a coroutine at an await (cancellation, or an engine error
 that is not an SNMP error).  When a lock is free any parked coroutine may be woken, so the
 first-in-first-out order of asyncio is one of the schedules covered.
 */
module ProbeProtocol {
  type Ip = string
  type Community = string
  type Cid = nat

  datatype Config = Config(communities: seq<Community>, ttl: int)

  datatype Outcome = Target(community: Community) | Unreachable | Aborted

  datatype Pc =
    | Waiting              // parked on the lock of its IP
    | Probing(k: nat)      // holds the lock, awaits the reply to the GET with the k-th community
    | Done(outcome: Outcome)

  datatype Call = Call(ip: Ip, pc: Pc)

  /** What an observer of the wire and of the cache would write down. */
  datatype Event =
    | ProbeSent(ip: Ip, community: Community, at: int)
    | Answered(ip: Ip, community: Community, at: int)    // non-empty reply
    | CampaignFailed(ip: Ip, at: int)                    // every community failed

  datatype State = State(
    now: int,
    community: map<Ip, Community>,
    negative: map<Ip, int>,
    holder: map<Ip, Cid>,
    calls: map<Cid, Call>,
    log: seq<Event>)

  datatype Action =
    | Enter(c: Cid, ip: Ip)
    | Wake(c: Cid)
    | Reply(c: Cid, nonEmpty: bool)
    | Abort(c: Cid)
    | Tick(elapsed: nat)

  /** `is_negative_cached`: the cooldown of the IP has not expired. */
  predicate Cooling(s: State, ip: Ip) {
    ip in s.negative && s.now < s.negative[ip]
  }

  predicate SomeoneWaits(s: State, ip: Ip) {
    exists c :: c in s.calls && s.calls[c] == Call(ip, Waiting)
  }

  predicate Enabled(s: State, a: Action) {
    match a
    case Enter(c, ip) => c !in s.calls
    case Wake(c) => c in s.calls && s.calls[c].pc.Waiting? && s.calls[c].ip !in s.holder
    case Reply(c, _) => c in s.calls && s.calls[c].pc.Probing?
    case Abort(c) => c in s.calls && !s.calls[c].pc.Done?
    case Tick(_) => true
  }

  function Finish(s: State, c: Cid, ip: Ip, outcome: Outcome): State {
    s.(calls := s.calls[c := Call(ip, Done(outcome))])
  }

  /** The loop body of the probe campaign, from the k-th community on, up to the next await. */
  function SendProbe(cfg: Config, s: State, c: Cid, ip: Ip, k: nat): State {
    if k < |cfg.communities| then
      s.(holder := s.holder[ip := c],
         calls := s.calls[c := Call(ip, Probing(k))],
         log := s.log + [ProbeSent(ip, cfg.communities[k], s.now)])
    else
      Finish(s, c, ip, Unreachable).(
        holder := s.holder - {ip},
        negative := s.negative[ip := s.now + cfg.ttl],
        log := s.log + [CampaignFailed(ip, s.now)])
  }

  /** Inside the lock: both caches are checked again before any probe is sent. */
  function Locked(cfg: Config, s: State, c: Cid, ip: Ip): State {
    if ip in s.community then Finish(s, c, ip, Target(s.community[ip]))
    else if Cooling(s, ip) then Finish(s, c, ip, Unreachable)
    else SendProbe(cfg, s, c, ip, 0)
  }

  function Apply(cfg: Config, s: State, a: Action): State
    requires Enabled(s, a)
  {
    match a
    case Enter(c, ip) =>
      if ip in s.community then Finish(s, c, ip, Target(s.community[ip]))
      else if Cooling(s, ip) then Finish(s, c, ip, Unreachable)
      else
        var s' := s.(negative := s.negative - {ip});
        if ip in s.holder || SomeoneWaits(s, ip) then s'.(calls := s.calls[c := Call(ip, Waiting)])
        else Locked(cfg, s', c, ip)
    case Wake(c) => Locked(cfg, s, c, s.calls[c].ip)
    case Reply(c, nonEmpty) =>
      var Call(ip, Probing(k)) := s.calls[c];
      if nonEmpty && k < |cfg.communities| then
        Finish(s, c, ip, Target(cfg.communities[k])).(
          community := s.community[ip := cfg.communities[k]],
          holder := s.holder - {ip},
          log := s.log + [Answered(ip, cfg.communities[k], s.now)])
      else SendProbe(cfg, s, c, ip, k + 1)
    case Abort(c) =>
      var Call(ip, pc) := s.calls[c];
      Finish(s, c, ip, Aborted).(holder := if pc.Probing? then s.holder - {ip} else s.holder)
    case Tick(elapsed) => s.(now := s.now + elapsed)
  }

  const INIT := State(0, map[], map[], map[], map[], [])

  /** The state after `run`, which must be executable step by step. */
  ghost predicate Executable(cfg: Config, s: State, run: seq<Action>)
    decreases |run|
  {
    run == [] || (Enabled(s, run[0]) && Executable(cfg, Apply(cfg, s, run[0]), run[1..]))
  }

  ghost function After(cfg: Config, s: State, run: seq<Action>): State
    requires Executable(cfg, s, run)
    decreases |run|
  {
    if run == [] then s else After(cfg, Apply(cfg, s, run[0]), run[1..])
  }

  /** One step more. */
  lemma {:induction false} AfterNext(cfg: Config, s: State, run: seq<Action>, a: Action)
    requires Executable(cfg, s, run) && Enabled(After(cfg, s, run), a)
    ensures Executable(cfg, s, run + [a]) && After(cfg, s, run + [a]) == Apply(cfg, After(cfg, s, run), a)
    decreases |run|
  {
    if run == [] {
      assert [] + [a] == [a] && [a][1..] == [];
    } else {
      AfterNext(cfg, Apply(cfg, s, run[0]), run[1..], a);
      assert (run + [a])[1..] == run[1..] + [a];
    }
  }

  // ---- Invariant ----

  /** The lock table and the program counters say the same thing. */
  ghost predicate LocksMatch(cfg: Config, s: State) {
    && (forall ip :: ip in s.holder ==>
         s.holder[ip] in s.calls && s.calls[s.holder[ip]].ip == ip && s.calls[s.holder[ip]].pc.Probing?)
    && (forall c :: c in s.calls && s.calls[c].pc.Probing? ==>
         && s.calls[c].ip in s.holder && s.holder[s.calls[c].ip] == c
         && s.calls[c].pc.k < |cfg.communities|)
  }

  /** A campaign runs only for an IP that neither cache knows, and no IP is in both caches. */
  ghost predicate CachesExclusive(s: State) {
    && (forall ip :: ip in s.holder ==> ip !in s.community && !Cooling(s, ip))
    && (forall ip :: ip in s.community ==> !Cooling(s, ip))
  }

  /** A call that returned a target returned the cached community of its IP. */
  ghost predicate TargetsCached(s: State) {
    forall c :: c in s.calls && s.calls[c].pc.Done? && s.calls[c].pc.outcome.Target? ==>
      s.calls[c].ip in s.community && s.community[s.calls[c].ip] == s.calls[c].pc.outcome.community
  }

  ghost predicate LockInv(cfg: Config, s: State) {
    LocksMatch(cfg, s) && CachesExclusive(s) && TargetsCached(s)
  }

  ghost predicate Tried(log: seq<Event>, ip: Ip, community: Community) {
    exists t :: ProbeSent(ip, community, t) in log
  }

  ghost predicate HasAnswered(log: seq<Event>, ip: Ip, community: Community) {
    exists t :: Answered(ip, community, t) in log
  }

  /** Every cached community was configured and answered to; every cooldown comes from a failed campaign. */
  ghost predicate CachesJustified(cfg: Config, s: State) {
    && (forall ip :: ip in s.community ==>
         s.community[ip] in cfg.communities && HasAnswered(s.log, ip, s.community[ip]))
    && (forall ip :: ip in s.negative ==> CampaignFailed(ip, s.negative[ip] - cfg.ttl) in s.log)
  }

  /** What the log has recorded is still in force: answers are cached, cooldowns run or are over. */
  ghost predicate LogInForce(cfg: Config, s: State) {
    forall e :: e in s.log ==>
      && (e.Answered? ==> e.ip in s.community)
      && (e.CampaignFailed? ==>
           e.at + cfg.ttl <= s.now || (e.ip in s.negative && e.at + cfg.ttl <= s.negative[e.ip]))
  }

  /** The communities that an IP was probed with, in order. */
  function Asks(log: seq<Event>, ip: Ip): seq<Community> {
    if log == [] then []
    else
      var before, e := Asks(log[..|log| - 1], ip), log[|log| - 1];
      if e.ProbeSent? && e.ip == ip then before + [e.community] else before
  }

  predicate EndsWith<T(==)>(s: seq<T>, end: seq<T>) {
    |end| <= |s| && s[|s| - |end|..] == end
  }

  /** A running campaign has asked for the communities in order, from the first one on, and for nothing since. */
  ghost predicate CampaignsInOrder(cfg: Config, s: State) {
    forall c :: c in s.calls && s.calls[c].pc.Probing? && s.calls[c].pc.k < |cfg.communities| ==>
      EndsWith(Asks(s.log, s.calls[c].ip), cfg.communities[..s.calls[c].pc.k + 1])
  }

  /** A campaign is given up only after all communities. */
  ghost predicate FailuresComplete(cfg: Config, log: seq<Event>) {
    forall e, i :: e in log && e.CampaignFailed? && 0 <= i < |cfg.communities| ==>
      Tried(log, e.ip, cfg.communities[i])
  }

  ghost predicate Campaigns(cfg: Config, s: State) {
    CampaignsInOrder(cfg, s) && FailuresComplete(cfg, s.log)
  }

  /** No probe follows an answer of the same IP, nor a failed campaign before its cooldown is over. */
  ghost predicate Spaced(cfg: Config, log: seq<Event>) {
    forall i, j :: 0 <= i < j < |log| && log[j].ProbeSent? && log[i].ip == log[j].ip ==>
      && !log[i].Answered?
      && (log[i].CampaignFailed? ==> log[i].at + cfg.ttl <= log[j].at)
  }

  ghost predicate Inv(cfg: Config, s: State) {
    && LockInv(cfg, s)
    && CachesJustified(cfg, s)
    && LogInForce(cfg, s)
    && Spaced(cfg, s.log)
    && Campaigns(cfg, s)
  }

  // ---- Locks and caches ----

  /** What a coroutine about to send the k-th probe of a campaign, or to give up, may rely on. */
  ghost predicate MayProbe(s: State, c: Cid, ip: Ip) {
    && ip !in s.community && !Cooling(s, ip)
    && (if ip in s.holder then s.holder[ip] == c else c in s.calls ==> s.calls[c].pc.Waiting?)
    && (c in s.calls ==> s.calls[c].ip == ip)
  }

  lemma NextProbeKeepsLocks(cfg: Config, s: State, c: Cid, ip: Ip, k: nat)
    requires LockInv(cfg, s) && MayProbe(s, c, ip) && k < |cfg.communities|
    ensures LockInv(cfg, SendProbe(cfg, s, c, ip, k))
  {
  }

  lemma GiveUpKeepsLocks(cfg: Config, s: State, c: Cid, ip: Ip, k: nat)
    requires LockInv(cfg, s) && MayProbe(s, c, ip) && k >= |cfg.communities|
    ensures LockInv(cfg, SendProbe(cfg, s, c, ip, k))
  {
  }

  lemma SendProbeKeepsLocks(cfg: Config, s: State, c: Cid, ip: Ip, k: nat)
    requires LockInv(cfg, s) && MayProbe(s, c, ip)
    ensures LockInv(cfg, SendProbe(cfg, s, c, ip, k))
  {
    if k < |cfg.communities| { NextProbeKeepsLocks(cfg, s, c, ip, k); } else { GiveUpKeepsLocks(cfg, s, c, ip, k); }
  }

  lemma LockedKeepsLocks(cfg: Config, s: State, c: Cid, ip: Ip)
    requires LockInv(cfg, s) && ip !in s.holder
    requires c in s.calls ==> s.calls[c] == Call(ip, Waiting)
    ensures LockInv(cfg, Locked(cfg, s, c, ip))
  {
    if ip !in s.community && !Cooling(s, ip) { SendProbeKeepsLocks(cfg, s, c, ip, 0); }
  }

  lemma EnterKeepsLocks(cfg: Config, s: State, c: Cid, ip: Ip)
    requires LockInv(cfg, s) && Enabled(s, Enter(c, ip))
    ensures LockInv(cfg, Apply(cfg, s, Enter(c, ip)))
  {
    if ip !in s.community && !Cooling(s, ip) && ip !in s.holder && !SomeoneWaits(s, ip) {
      LockedKeepsLocks(cfg, s.(negative := s.negative - {ip}), c, ip);
    }
  }

  lemma WakeKeepsLocks(cfg: Config, s: State, c: Cid)
    requires LockInv(cfg, s) && Enabled(s, Wake(c))
    ensures LockInv(cfg, Apply(cfg, s, Wake(c)))
  {
    LockedKeepsLocks(cfg, s, c, s.calls[c].ip);
  }

  lemma AnswerKeepsLocks(cfg: Config, s: State, c: Cid)
    requires LockInv(cfg, s) && Enabled(s, Reply(c, true))
    ensures LockInv(cfg, Apply(cfg, s, Reply(c, true)))
  {
  }

  lemma SilenceKeepsLocks(cfg: Config, s: State, c: Cid)
    requires LockInv(cfg, s) && Enabled(s, Reply(c, false))
    ensures LockInv(cfg, Apply(cfg, s, Reply(c, false)))
  {
    SendProbeKeepsLocks(cfg, s, c, s.calls[c].ip, s.calls[c].pc.k + 1);
  }

  lemma AbortKeepsLocks(cfg: Config, s: State, c: Cid)
    requires LockInv(cfg, s) && Enabled(s, Abort(c))
    ensures LockInv(cfg, Apply(cfg, s, Abort(c)))
  {
  }

  lemma StepKeepsLocks(cfg: Config, s: State, a: Action)
    requires LockInv(cfg, s) && Enabled(s, a)
    ensures LockInv(cfg, Apply(cfg, s, a))
  {
    match a
    case Enter(c, ip) => EnterKeepsLocks(cfg, s, c, ip);
    case Wake(c) => WakeKeepsLocks(cfg, s, c);
    case Reply(c, nonEmpty) =>
      if nonEmpty { AnswerKeepsLocks(cfg, s, c); } else { SilenceKeepsLocks(cfg, s, c); }
    case Abort(c) => AbortKeepsLocks(cfg, s, c);
    case Tick(elapsed) =>
  }

  // ---- The log ----

  /** How one step may change the log, the caches and the clock together. */
  ghost predicate LogStep(cfg: Config, s: State, s': State) {
    && s.now <= s'.now
    && ((s'.log == s.log && s'.community == s.community && KeepsCooling(s, s')) ||
        (exists e :: s'.log == s.log + [e] && LogEvent(cfg, s, s', e)))
  }

  ghost predicate KeepsCooling(s: State, s': State) {
    && (forall ip :: Cooling(s, ip) ==> ip in s'.negative)
    && (forall ip :: ip in s'.negative ==> ip in s.negative && s'.negative[ip] == s.negative[ip])
  }

  ghost predicate LogEvent(cfg: Config, s: State, s': State, e: Event) {
    match e
    case ProbeSent(ip, community, at) =>
      && at == s.now && ip !in s.community && !Cooling(s, ip)
      && s'.community == s.community && KeepsCooling(s, s')
    case Answered(ip, community, at) =>
      && community in cfg.communities
      && s'.community == s.community[ip := community] && KeepsCooling(s, s')
    case CampaignFailed(ip, at) =>
      && at == s.now && !Cooling(s, ip)
      && s'.community == s.community
      && ip in s'.negative && s'.negative[ip] == s.now + cfg.ttl
      && (forall x :: x != ip && Cooling(s, x) ==> x in s'.negative)
      && (forall x :: x != ip && x in s'.negative ==> x in s.negative && s'.negative[x] == s.negative[x])
  }

  lemma SendProbeLog(cfg: Config, s: State, c: Cid, ip: Ip, k: nat)
    requires ip !in s.community && !Cooling(s, ip)
    ensures LogStep(cfg, s, SendProbe(cfg, s, c, ip, k))
  {
    var s' := SendProbe(cfg, s, c, ip, k);
    var e := if k < |cfg.communities| then ProbeSent(ip, cfg.communities[k], s.now) else CampaignFailed(ip, s.now);
    assert s'.log == s.log + [e] && LogEvent(cfg, s, s', e);
  }

  lemma LockedLog(cfg: Config, s: State, c: Cid, ip: Ip)
    ensures LogStep(cfg, s, Locked(cfg, s, c, ip))
  {
    if ip !in s.community && !Cooling(s, ip) { SendProbeLog(cfg, s, c, ip, 0); }
  }

  lemma EnterLog(cfg: Config, s: State, c: Cid, ip: Ip)
    requires Enabled(s, Enter(c, ip))
    ensures LogStep(cfg, s, Apply(cfg, s, Enter(c, ip)))
  {
    if ip !in s.community && !Cooling(s, ip) {
      LockedLog(cfg, s.(negative := s.negative - {ip}), c, ip);
    }
  }

  lemma ReplyLog(cfg: Config, s: State, c: Cid, nonEmpty: bool)
    requires LockInv(cfg, s) && Enabled(s, Reply(c, nonEmpty))
    ensures LogStep(cfg, s, Apply(cfg, s, Reply(c, nonEmpty)))
  {
    var Call(ip, Probing(k)) := s.calls[c];
    if nonEmpty {
      var e := Answered(ip, cfg.communities[k], s.now);
      assert LogEvent(cfg, s, Apply(cfg, s, Reply(c, nonEmpty)), e);
    } else {
      SendProbeLog(cfg, s, c, ip, k + 1);
    }
  }

  lemma StepLog(cfg: Config, s: State, a: Action)
    requires LockInv(cfg, s) && Enabled(s, a)
    ensures LogStep(cfg, s, Apply(cfg, s, a))
  {
    match a
    case Enter(c, ip) => EnterLog(cfg, s, c, ip);
    case Wake(c) => LockedLog(cfg, s, c, s.calls[c].ip);
    case Reply(c, nonEmpty) => ReplyLog(cfg, s, c, nonEmpty);
    case Abort(c) =>
    case Tick(elapsed) =>
  }

  lemma SpacedExtend(cfg: Config, log: seq<Event>, e: Event)
    requires Spaced(cfg, log)
    requires e.ProbeSent? ==> forall x :: x in log && x.ip == e.ip ==>
      !x.Answered? && (x.CampaignFailed? ==> x.at + cfg.ttl <= e.at)
    ensures Spaced(cfg, log + [e])
  {
    var l := log + [e];
    forall i, j | 0 <= i < j < |l| && l[j].ProbeSent? && l[i].ip == l[j].ip
      ensures !l[i].Answered? && (l[i].CampaignFailed? ==> l[i].at + cfg.ttl <= l[j].at)
    {
      assert l[i] == log[i] && log[i] in log;
    }
  }

  lemma StepKeepsSpacing(cfg: Config, s: State, s': State)
    requires LogInForce(cfg, s) && Spaced(cfg, s.log) && LogStep(cfg, s, s')
    ensures LogInForce(cfg, s') && Spaced(cfg, s'.log)
  {
    if s'.log != s.log {
      var e :| s'.log == s.log + [e] && LogEvent(cfg, s, s', e);
      SpacedExtend(cfg, s.log, e);
    }
  }

  lemma HistoryGrows(log: seq<Event>, e: Event)
    ensures forall ip, community :: Tried(log, ip, community) ==> Tried(log + [e], ip, community)
    ensures forall ip, community :: HasAnswered(log, ip, community) ==> HasAnswered(log + [e], ip, community)
    ensures e.ProbeSent? ==> Tried(log + [e], e.ip, e.community)
    ensures e.Answered? ==> HasAnswered(log + [e], e.ip, e.community)
    ensures forall x :: x in log + [e] <==> x in log || x == e
  {
    assert forall x :: x in log ==> x in log + [e];
    assert (log + [e])[|log|] == e;
    if e.ProbeSent? { assert ProbeSent(e.ip, e.community, e.at) in log + [e]; }
    if e.Answered? { assert Answered(e.ip, e.community, e.at) in log + [e]; }
  }

  lemma StepKeepsJustified(cfg: Config, s: State, s': State)
    requires CachesJustified(cfg, s) && LogStep(cfg, s, s')
    ensures CachesJustified(cfg, s')
  {
    if s'.log != s.log {
      var e :| s'.log == s.log + [e] && LogEvent(cfg, s, s', e);
      HistoryGrows(s.log, e);
    }
  }

  // ---- Completeness of campaigns ----

  lemma AsksNext(log: seq<Event>, e: Event, ip: Ip)
    ensures Asks(log + [e], ip) == if e.ProbeSent? && e.ip == ip then Asks(log, ip) + [e.community] else Asks(log, ip)
  {
    assert (log + [e])[..|log|] == log;
  }

  lemma {:induction false} AskedIsTried(log: seq<Event>, ip: Ip, community: Community)
    requires community in Asks(log, ip)
    ensures Tried(log, ip, community)
  {
    var front, e := log[..|log| - 1], log[|log| - 1];
    assert log == front + [e];
    HistoryGrows(front, e);
    if community in Asks(front, ip) { AskedIsTried(front, ip, community); }
  }

  lemma AllAskedAllTried(cfg: Config, log: seq<Event>, ip: Ip)
    requires EndsWith(Asks(log, ip), cfg.communities)
    ensures forall i :: 0 <= i < |cfg.communities| ==> Tried(log, ip, cfg.communities[i])
  {
    var asks := Asks(log, ip);
    forall i | 0 <= i < |cfg.communities| ensures Tried(log, ip, cfg.communities[i]) {
      assert asks[|asks| - |cfg.communities| + i] == cfg.communities[i];
      AskedIsTried(log, ip, cfg.communities[i]);
    }
  }

  lemma EndsWithNext<T>(s: seq<T>, end: seq<T>, x: T)
    requires EndsWith(s, end)
    ensures EndsWith(s + [x], end + [x])
  {
  }

  lemma NextProbeKeepsCampaigns(cfg: Config, s: State, c: Cid, ip: Ip, k: nat)
    requires LockInv(cfg, s) && MayProbe(s, c, ip) && Campaigns(cfg, s) && k < |cfg.communities|
    requires EndsWith(Asks(s.log, ip), cfg.communities[..k])
    ensures Campaigns(cfg, SendProbe(cfg, s, c, ip, k))
  {
    var s', e := SendProbe(cfg, s, c, ip, k), ProbeSent(ip, cfg.communities[k], s.now);
    HistoryGrows(s.log, e);
    EndsWithNext(Asks(s.log, ip), cfg.communities[..k], cfg.communities[k]);
    assert cfg.communities[..k] + [cfg.communities[k]] == cfg.communities[..k + 1];
    forall d | d in s'.calls && s'.calls[d].pc.Probing? && s'.calls[d].pc.k < |cfg.communities|
      ensures EndsWith(Asks(s'.log, s'.calls[d].ip), cfg.communities[..s'.calls[d].pc.k + 1])
    {
      AsksNext(s.log, e, s'.calls[d].ip);
    }
  }

  lemma GiveUpKeepsCampaigns(cfg: Config, s: State, c: Cid, ip: Ip)
    requires Campaigns(cfg, s) && EndsWith(Asks(s.log, ip), cfg.communities)
    ensures Campaigns(cfg, SendProbe(cfg, s, c, ip, |cfg.communities|))
  {
    var s', e := SendProbe(cfg, s, c, ip, |cfg.communities|), CampaignFailed(ip, s.now);
    HistoryGrows(s.log, e);
    AllAskedAllTried(cfg, s.log, ip);
    forall d | d in s'.calls && s'.calls[d].pc.Probing? && s'.calls[d].pc.k < |cfg.communities|
      ensures EndsWith(Asks(s'.log, s'.calls[d].ip), cfg.communities[..s'.calls[d].pc.k + 1])
    {
      AsksNext(s.log, e, s'.calls[d].ip);
    }
  }

  lemma SendProbeKeepsCampaigns(cfg: Config, s: State, c: Cid, ip: Ip, k: nat)
    requires LockInv(cfg, s) && MayProbe(s, c, ip) && Campaigns(cfg, s) && k <= |cfg.communities|
    requires EndsWith(Asks(s.log, ip), cfg.communities[..k])
    ensures Campaigns(cfg, SendProbe(cfg, s, c, ip, k))
  {
    if k < |cfg.communities| {
      NextProbeKeepsCampaigns(cfg, s, c, ip, k);
    } else {
      assert cfg.communities[..k] == cfg.communities;
      GiveUpKeepsCampaigns(cfg, s, c, ip);
    }
  }

  lemma AnswerKeepsCampaigns(cfg: Config, s: State, c: Cid)
    requires LockInv(cfg, s) && Campaigns(cfg, s) && Enabled(s, Reply(c, true))
    ensures Campaigns(cfg, Apply(cfg, s, Reply(c, true)))
  {
    var s' := Apply(cfg, s, Reply(c, true));
    var e := Answered(s.calls[c].ip, cfg.communities[s.calls[c].pc.k], s.now);
    HistoryGrows(s.log, e);
    forall d | d in s'.calls && s'.calls[d].pc.Probing? && s'.calls[d].pc.k < |cfg.communities|
      ensures EndsWith(Asks(s'.log, s'.calls[d].ip), cfg.communities[..s'.calls[d].pc.k + 1])
    {
      AsksNext(s.log, e, s'.calls[d].ip);
    }
  }

  lemma LockedKeepsCampaigns(cfg: Config, s: State, c: Cid, ip: Ip)
    requires LockInv(cfg, s) && Campaigns(cfg, s) && ip !in s.holder
    requires c in s.calls ==> s.calls[c] == Call(ip, Waiting)
    ensures Campaigns(cfg, Locked(cfg, s, c, ip))
  {
    if ip !in s.community && !Cooling(s, ip) { SendProbeKeepsCampaigns(cfg, s, c, ip, 0); }
  }

  lemma QuietKeepsCampaigns(cfg: Config, s: State, s': State, c: Cid, pc: Pc, ip: Ip)
    requires Campaigns(cfg, s) && s'.log == s.log && s'.calls == s.calls[c := Call(ip, pc)] && !pc.Probing?
    ensures Campaigns(cfg, s')
  {
  }

  /** Dropping an expired entry of the negative cache. */
  lemma ForgetKeeps(cfg: Config, s: State, ip: Ip)
    requires LockInv(cfg, s) && Campaigns(cfg, s) && !Cooling(s, ip)
    ensures var s' := s.(negative := s.negative - {ip}); LockInv(cfg, s') && Campaigns(cfg, s')
  {
  }

  lemma EnterKeepsCampaigns(cfg: Config, s: State, c: Cid, ip: Ip)
    requires LockInv(cfg, s) && Campaigns(cfg, s) && Enabled(s, Enter(c, ip))
    ensures Campaigns(cfg, Apply(cfg, s, Enter(c, ip)))
  {
    var s' := Apply(cfg, s, Enter(c, ip));
    if ip in s.community {
      QuietKeepsCampaigns(cfg, s, s', c, Done(Target(s.community[ip])), ip);
    } else if Cooling(s, ip) {
      QuietKeepsCampaigns(cfg, s, s', c, Done(Unreachable), ip);
    } else if ip in s.holder || SomeoneWaits(s, ip) {
      QuietKeepsCampaigns(cfg, s, s', c, Waiting, ip);
    } else {
      ForgetKeeps(cfg, s, ip);
      LockedKeepsCampaigns(cfg, s.(negative := s.negative - {ip}), c, ip);
    }
  }

  lemma WakeKeepsCampaigns(cfg: Config, s: State, c: Cid)
    requires LockInv(cfg, s) && Campaigns(cfg, s) && Enabled(s, Wake(c))
    ensures Campaigns(cfg, Apply(cfg, s, Wake(c)))
  {
    LockedKeepsCampaigns(cfg, s, c, s.calls[c].ip);
  }

  lemma SilenceIsNextProbe(cfg: Config, s: State, c: Cid, ip: Ip, k: nat)
    requires c in s.calls && s.calls[c] == Call(ip, Probing(k))
    ensures Apply(cfg, s, Reply(c, false)) == SendProbe(cfg, s, c, ip, k + 1)
  {
  }

  lemma RunningCampaign(cfg: Config, s: State, c: Cid, ip: Ip, k: nat)
    requires LockInv(cfg, s) && Campaigns(cfg, s) && c in s.calls && s.calls[c] == Call(ip, Probing(k))
    ensures k < |cfg.communities| && MayProbe(s, c, ip) && EndsWith(Asks(s.log, ip), cfg.communities[..k + 1])
  {
  }

  lemma SilenceKeepsCampaigns(cfg: Config, s: State, c: Cid)
    requires LockInv(cfg, s) && Campaigns(cfg, s) && Enabled(s, Reply(c, false))
    ensures Campaigns(cfg, Apply(cfg, s, Reply(c, false)))
  {
    var Call(ip, Probing(k)) := s.calls[c];
    RunningCampaign(cfg, s, c, ip, k);
    SendProbeKeepsCampaigns(cfg, s, c, ip, k + 1);
    SilenceIsNextProbe(cfg, s, c, ip, k);
  }

  lemma StepKeepsCampaigns(cfg: Config, s: State, a: Action)
    requires LockInv(cfg, s) && Campaigns(cfg, s) && Enabled(s, a)
    ensures Campaigns(cfg, Apply(cfg, s, a))
  {
    match a
    case Enter(c, ip) => EnterKeepsCampaigns(cfg, s, c, ip);
    case Wake(c) => WakeKeepsCampaigns(cfg, s, c);
    case Reply(c, nonEmpty) =>
      if nonEmpty { AnswerKeepsCampaigns(cfg, s, c); } else { SilenceKeepsCampaigns(cfg, s, c); }
    case Abort(c) =>
    case Tick(elapsed) =>
  }

  /** Every step keeps the invariant. */
  lemma StepKeepsInv(cfg: Config, s: State, a: Action)
    requires Inv(cfg, s) && Enabled(s, a)
    ensures Inv(cfg, Apply(cfg, s, a))
  {
    StepKeepsLocks(cfg, s, a);
    StepLog(cfg, s, a);
    StepKeepsSpacing(cfg, s, Apply(cfg, s, a));
    StepKeepsJustified(cfg, s, Apply(cfg, s, a));
    StepKeepsCampaigns(cfg, s, a);
  }

  lemma {:induction false} RunKeepsInv(cfg: Config, s: State, run: seq<Action>)
    requires Inv(cfg, s) && Executable(cfg, s, run)
    ensures Inv(cfg, After(cfg, s, run))
    decreases |run|
  {
    if run != [] {
      StepKeepsInv(cfg, s, run[0]);
      RunKeepsInv(cfg, Apply(cfg, s, run[0]), run[1..]);
    }
  }

  /** A call in the probe loop has asked for one of the communities. */
  lemma ProbingWithin(cfg: Config, run: seq<Action>, c: Cid)
    requires Executable(cfg, INIT, run)
    requires c in After(cfg, INIT, run).calls && After(cfg, INIT, run).calls[c].pc.Probing?
    ensures After(cfg, INIT, run).calls[c].pc.k < |cfg.communities|
  {
    RunKeepsInv(cfg, INIT, run);
  }

  // ---- What a step does to the call that makes it ----

  lemma ActorStays(cfg: Config, s: State, a: Action)
    requires Enabled(s, a) && !a.Tick?
    ensures a.c in Apply(cfg, s, a).calls
  {
  }

  /** How far a call is from its end; every step of the call brings it closer. */
  function Rank(cfg: Config, pc: Pc): nat {
    match pc
    case Waiting => |cfg.communities| + 1
    case Probing(k) => if k < |cfg.communities| then |cfg.communities| - k else 0
    case Done(_) => 0
  }

  /** Only the call of `c` changed, and it now has this IP and a rank below `bound`. */
  ghost predicate CallMoved(cfg: Config, s: State, s': State, c: Cid, ip: Ip, bound: int) {
    && c in s'.calls && s'.calls == s.calls[c := s'.calls[c]]
    && s'.calls[c].ip == ip && Rank(cfg, s'.calls[c].pc) < bound
    && (s'.calls[c].pc.Done? ==> !s'.calls[c].pc.outcome.Aborted?)
    && (ip in s.community ==> s'.calls[c].pc.Done? && s'.calls[c].pc.outcome.Target?)
  }

  lemma LockedMovesCall(cfg: Config, s: State, c: Cid, ip: Ip)
    ensures CallMoved(cfg, s, Locked(cfg, s, c, ip), c, ip, |cfg.communities| + 1)
  {
  }

  lemma EnterMovesCall(cfg: Config, s: State, c: Cid, ip: Ip)
    requires Enabled(s, Enter(c, ip))
    ensures CallMoved(cfg, s, Apply(cfg, s, Enter(c, ip)), c, ip, |cfg.communities| + 2)
  {
    LockedMovesCall(cfg, s.(negative := s.negative - {ip}), c, ip);
  }

  lemma ReplyMovesCall(cfg: Config, s: State, c: Cid, nonEmpty: bool)
    requires LockInv(cfg, s) && Enabled(s, Reply(c, nonEmpty))
    ensures CallMoved(cfg, s, Apply(cfg, s, Reply(c, nonEmpty)), c, s.calls[c].ip, Rank(cfg, s.calls[c].pc))
  {
  }

  lemma CommunityGrows(cfg: Config, s: State, a: Action)
    requires LockInv(cfg, s) && Enabled(s, a)
    ensures s.community.Keys <= Apply(cfg, s, a).community.Keys
  {
    StepLog(cfg, s, a);
  }

  // ---- Main results, over every run ----

  /** At most one coroutine per IP is in the probe loop. */
  lemma ProbeMutualExclusion(cfg: Config, run: seq<Action>, c: Cid, d: Cid)
    requires Executable(cfg, INIT, run)
    requires var s := After(cfg, INIT, run);
      c in s.calls && d in s.calls && s.calls[c].pc.Probing? && s.calls[d].pc.Probing? && s.calls[c].ip == s.calls[d].ip
    ensures c == d
  {
    RunKeepsInv(cfg, INIT, run);
  }

  /** A cached community is a configured one that this IP has answered to, and the IP is not cooling down. */
  lemma CachedCommunityAnswered(cfg: Config, run: seq<Action>, ip: Ip)
    requires Executable(cfg, INIT, run) && ip in After(cfg, INIT, run).community
    ensures var s := After(cfg, INIT, run);
      && !Cooling(s, ip)
      && s.community[ip] in cfg.communities
      && HasAnswered(s.log, ip, s.community[ip])
  {
    RunKeepsInv(cfg, INIT, run);
  }

  /** What a finished `get_target` call tells: a target carries the community its IP answered to. */
  lemma ReturnedTargetAnswered(cfg: Config, run: seq<Action>, c: Cid)
    requires Executable(cfg, INIT, run)
    requires var s := After(cfg, INIT, run); c in s.calls && s.calls[c].pc.Done? && s.calls[c].pc.outcome.Target?
    ensures var s := After(cfg, INIT, run);
      HasAnswered(s.log, s.calls[c].ip, s.calls[c].pc.outcome.community)
  {
    RunKeepsInv(cfg, INIT, run);
    var s := After(cfg, INIT, run);
    assert s.calls[c].ip in s.community;
  }

  /** An IP is in the negative cache only because a campaign failed, with every configured community tried. */
  lemma NegativeAfterAllTried(cfg: Config, run: seq<Action>, ip: Ip, community: Community)
    requires Executable(cfg, INIT, run)
    requires ip in After(cfg, INIT, run).negative && community in cfg.communities
    ensures var s := After(cfg, INIT, run);
      && CampaignFailed(ip, s.negative[ip] - cfg.ttl) in s.log
      && Tried(s.log, ip, community)
  {
    RunKeepsInv(cfg, INIT, run);
    var i :| 0 <= i < |cfg.communities| && cfg.communities[i] == community;
  }

  /** Once an IP has answered, no probe is ever sent to it again. */
  lemma NoProbeOnceKnown(cfg: Config, run: seq<Action>, i: nat, j: nat)
    requires Executable(cfg, INIT, run)
    requires var log := After(cfg, INIT, run).log;
      i < j < |log| && log[i].Answered? && log[i].ip == log[j].ip
    ensures !After(cfg, INIT, run).log[j].ProbeSent?
  {
    RunKeepsInv(cfg, INIT, run);
  }

  /** After a campaign failed completely, the next probe to that IP comes at least one TTL later. */
  lemma CooldownRespected(cfg: Config, run: seq<Action>, i: nat, j: nat)
    requires Executable(cfg, INIT, run)
    requires var log := After(cfg, INIT, run).log;
      i < j < |log| && log[i].CampaignFailed? && log[j].ProbeSent? && log[i].ip == log[j].ip
    ensures var log := After(cfg, INIT, run).log;
      log[i].at + cfg.ttl <= log[j].at
  {
    RunKeepsInv(cfg, INIT, run);
  }
}
