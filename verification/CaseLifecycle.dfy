/**
 What holds of the cases over every interleaving of user requests, client-list changes and scheduler
 steps, and after every complete scheduler cycle.
 */
module CaseLifecycle {
  import opened Wrappers
  import opened Seqs
  import opened CaseTable

  // ---- Resolved cases are reachable ----

  predicate ReachableIfResolved(c: Case) {
    c.status == RESOLVED ==> c.ping == Some(true)
  }

  /** The since-time is set exactly for reachable clients. */
  predicate SinceIfReachable(c: Case) {
    c.since.Some? <==> c.ping == Some(true)
  }

  /** A ping update has been committed and no reopening since: the scheduler is inside a cycle, or gave one up. */
  predicate Dirty(actions: seq<Action>) {
    actions != [] && match Last(actions)
      case PingsUpdated(_, _) => true
      case UnreachableReopened => false
      case _ => Dirty(Front(actions))
  }

  ghost predicate All(p: Case -> bool, cases: seq<Case>) {
    forall c :: c in cases ==> p(c)
  }

  /** A bulk update keeps what its rewriting of one case establishes. */
  lemma MapKeeps(cases: seq<Case>, f: Case -> Case, p: Case -> bool)
    requires forall c :: c in cases ==> p(f(c))
    ensures All(p, Map(cases, f))
  {
    forall c | c in Map(cases, f) ensures p(c) {
      var i :| 0 <= i < |cases| && Map(cases, f)[i] == c;
      assert cases[i] in cases;
    }
  }

  lemma EditKeeps(c: Case, r: Request, accounts: set<string>)
    requires Edited(c, r, accounts).Ok?
    ensures ReachableIfResolved(c) ==> ReachableIfResolved(Edited(c, r, accounts).value)
    ensures Edited(c, r, accounts).value.ping == c.ping && Edited(c, r, accounts).value.since == c.since
  {
  }

  /** What a request may ask for: who asks, and that it makes sense for the case. */
  predicate Allowed(c: Case, r: Request, accounts: set<string>) {
    && (r.summary.Some? || r.status.Some? ==> c.assignee == Some(r.user))
    && (r.assignee.Some? ==>
         if NonEmpty(c.assignee) then c.assignee == Some(r.user) && c.status != RESOLVED else IsManager(r.role))
    && (r.status.Some? ==> ParseStatus(r.status.value).Some?)
    && (r.status == Some("RESOLVED") ==> c.ping == Some(true))
    && (r.assignee.Some? && r.assignee.value != "" ==> r.assignee.value in accounts)
  }

  /** The status after a request: the one asked for, unless the assignee is taken away or the first one is set. */
  function StatusAfter(c: Case, r: Request): Status {
    var asked :=
      if r.status.Some? && ParseStatus(r.status.value).Some? then ParseStatus(r.status.value).value else c.status;
    if r.assignee == Some("") then UNASSIGNED
    else if r.assignee.Some? && asked == UNASSIGNED then ASSIGNED
    else asked
  }

  /** A request succeeds exactly if it is allowed, and then does what it asked for and nothing else. */
  lemma EditDoesWhatItSays(c: Case, r: Request, accounts: set<string>)
    ensures Edited(c, r, accounts).Ok? <==> Allowed(c, r, accounts)
    ensures Edited(c, r, accounts).Ok? ==>
      var c' := Edited(c, r, accounts).value;
      && c' == c.(status := c'.status, assignee := c'.assignee, summary := c'.summary)
      && c'.status == StatusAfter(c, r)
      && (c'.assignee == if r.assignee.None? then c.assignee else if r.assignee == Some("") then None else r.assignee)
      && (r.summary.None? ==> c'.summary == c.summary)
      && (r.summary.Some? ==> c'.summary == if r.summary.value == "" then None else Some(Text.Strip(r.summary.value)))
  {
  }

  function NameOf(s: Status): string {
    match s
    case UNASSIGNED => "UNASSIGNED"
    case ASSIGNED => "ASSIGNED"
    case IN_PROGRESS => "IN_PROGRESS"
    case DISCUSSING => "DISCUSSING"
    case RESOLVED => "RESOLVED"
    case IGNORED => "IGNORED"
  }

  /** Exactly the names of the statuses are understood. */
  lemma ParseStatusIff(name: string, s: Status)
    ensures ParseStatus(name) == Some(s) <==> name == NameOf(s)
  {
  }

  /** The case after a request that asks for these things. */
  ghost predicate EditedAs(c: Case, c': Case, r: Request) {
    && c' == c.(status := StatusAfter(c, r), assignee := c'.assignee, summary := c'.summary)
    && c'.assignee == (if r.assignee.None? then c.assignee else if r.assignee == Some("") then None else r.assignee)
    && c'.summary == (if r.summary.None? then c.summary else if r.summary == Some("") then None
                      else Some(Text.Strip(r.summary.value)))
  }

  /** What an error says of the case and the request. */
  ghost predicate ErrorTells(c: Case, r: Request, accounts: set<string>, e: UpdateError) {
    match e
    case NotFound => false
    case OnlyAssigneeMayEdit => (r.summary.Some? || r.status.Some?) && c.assignee != Some(r.user)
    case OnlyAssigneeMayTransfer => r.assignee.Some? && NonEmpty(c.assignee) && c.assignee != Some(r.user)
    case ResolvedCannotBeTransferred => r.assignee.Some? && NonEmpty(c.assignee) && c.status == RESOLVED
    case OnlyManagersMayAssign => r.assignee.Some? && !NonEmpty(c.assignee) && r.role != "ROOT" && r.role != "PM"
    case UnknownStatus => r.status.Some? && forall s :: r.status.value != NameOf(s)
    case UnreachableCannotBeResolved => r.status == Some("RESOLVED") && c.ping != Some(true)
    case UnknownUser => r.assignee.Some? && r.assignee.value != "" && r.assignee.value !in accounts
  }

  lemma ErrorMeaning(c: Case, r: Request, accounts: set<string>)
    requires Edited(c, r, accounts).Err?
    ensures ErrorTells(c, r, accounts, Edited(c, r, accounts).error)
  {
    if r.status.Some? {
      forall s { ParseStatusIff(r.status.value, s); }
    }
  }

  /**
   What a request stores: if its case is there and it is allowed, the case as asked for, and nothing
   else changes; otherwise nothing changes, and the error tells why.
   */
  lemma UpdateMeaning(db: DB, r: Request, accounts: set<string>, i: nat)
    requires Keys(db) && i < |db.cases|
    ensures var (db', error) := Update(db, r, accounts);
      && db' == db.(cases := db'.cases) && |db'.cases| == |db.cases|
      && (error == Some(NotFound) <==> forall c :: c in db.cases ==> c.id != r.caseId)
      && (db.cases[i].id != r.caseId ==> db'.cases[i] == db.cases[i])
      && (db.cases[i].id == r.caseId ==>
           && (error.None? <==> Allowed(db.cases[i], r, accounts))
           && (error.None? ==> EditedAs(db.cases[i], db'.cases[i], r))
           && (error.Some? ==> db' == db && ErrorTells(db.cases[i], r, accounts, error.value)))
  {
    FindMeaning(db.cases, r.caseId);
    if db.cases[i].id == r.caseId {
      assert db.cases[i] in db.cases;
      EditDoesWhatItSays(db.cases[i], r, accounts);
      if Edited(db.cases[i], r, accounts).Err? { ErrorMeaning(db.cases[i], r, accounts); }
    }
  }

  /** The case that a client without one gets. */
  ghost predicate NewFor(client: Client, root: Option<string>, c: Case) {
    && c.clientId == client.id && c.mac == Text.Upper(client.mac)
    && c.assignee == (if NonEmpty(client.defaultAssignee) then client.defaultAssignee else root)
    && c.status == (if NonEmpty(c.assignee) then ASSIGNED else UNASSIGNED)
    && c.summary.None? && c.ping.None? && c.since.None? && c.flags == Some(map[])
  }

  lemma {:induction false} MissingCaseCreated(clients: seq<Client>, existing: set<nat>, root: Option<string>,
                                              nextId: nat, client: Client) returns (c: Case)
    requires client in clients && client.id !in existing
    ensures c in MissingCases(clients, existing, root, nextId) && NewFor(client, root, c)
  {
    assert clients == Front(clients) + [Last(clients)];
    var before := MissingCases(Front(clients), existing, root, nextId);
    if client in Front(clients) {
      c := MissingCaseCreated(Front(clients), existing, root, nextId, client);
    } else {
      c := NewCase(nextId + |before|, client, root);
      assert (before + [c])[|before|] == c;
    }
  }

  lemma {:induction false} CreatedForMissing(clients: seq<Client>, existing: set<nat>, root: Option<string>,
                                             nextId: nat, c: Case) returns (client: Client)
    requires c in MissingCases(clients, existing, root, nextId)
    ensures client in clients && client.id !in existing && NewFor(client, root, c)
  {
    assert clients == Front(clients) + [Last(clients)];
    if c in MissingCases(Front(clients), existing, root, nextId) {
      client := CreatedForMissing(Front(clients), existing, root, nextId, c);
    } else {
      client := Last(clients);
    }
  }

  /** A synchronisation leaves the cases there are and adds one, as described, for each client without. */
  lemma SyncMeaning(db: DB, root: Option<string>)
    ensures var db' := Sync(db, root);
      && db'.clients == db.clients && db.cases <= db'.cases
      && (forall client :: client in db.clients && client.id !in CaseClients(db.cases) ==>
           exists c :: c in db'.cases[|db.cases|..] && NewFor(client, root, c))
      && (forall c :: c in db'.cases[|db.cases|..] ==>
           exists client :: client in db.clients && client.id !in CaseClients(db.cases) && NewFor(client, root, c))
  {
    var existing := CaseClients(db.cases);
    var created := MissingCases(db.clients, existing, root, db.nextCase);
    assert Sync(db, root).cases[|db.cases|..] == created;
    forall client | client in db.clients && client.id !in existing
      ensures exists c :: c in created && NewFor(client, root, c)
    {
      var c := MissingCaseCreated(db.clients, existing, root, db.nextCase, client);
    }
    forall c | c in created
      ensures exists client :: client in db.clients && client.id !in existing && NewFor(client, root, c)
    {
      var client := CreatedForMissing(db.clients, existing, root, db.nextCase, c);
    }
  }

  lemma UpdateKeeps(db: DB, r: Request, accounts: set<string>)
    ensures All(ReachableIfResolved, db.cases) ==> All(ReachableIfResolved, Update(db, r, accounts).0.cases)
    ensures All(SinceIfReachable, db.cases) ==> All(SinceIfReachable, Update(db, r, accounts).0.cases)
  {
    FindMeaning(db.cases, r.caseId);
    if Update(db, r, accounts).1.None? {
      var i := Find(db.cases, r.caseId).value;
      assert db.cases[i] in db.cases;
      EditKeeps(db.cases[i], r, accounts);
    }
  }

  lemma SyncKeeps(db: DB, root: Option<string>)
    requires Keys(db)
    ensures All(ReachableIfResolved, db.cases) ==> All(ReachableIfResolved, Sync(db, root).cases)
    ensures All(SinceIfReachable, db.cases) ==> All(SinceIfReachable, Sync(db, root).cases)
  {
    MissingCasesFresh(db.clients, CaseClients(db.cases), root, db.nextCase);
  }

  lemma RemoveKeeps(db: DB, id: nat)
    ensures forall c :: c in RemoveClient(db, id).cases ==> c in db.cases
  {
    forall c | c in RemoveClient(db, id).cases ensures c in db.cases { FilterMember(db.cases, OfOthers(id), c); }
  }

  lemma ApplyKeepsSince(db: DB, a: Action)
    requires Keys(db) && All(SinceIfReachable, db.cases)
    ensures All(SinceIfReachable, Apply(db, a).cases)
  {
    match a
    case ClientAdded(_, _) =>
    case ClientRemoved(id) => RemoveKeeps(db, id);
    case Synced(root) => SyncKeeps(db, root);
    case PingsUpdated(pings, now) => MapKeeps(db.cases, Pinged(pings, now), SinceIfReachable);
    case UnreachableReopened => MapKeeps(db.cases, Reopened(), SinceIfReachable);
    case ReachableResolved => MapKeeps(db.cases, Resolved(), SinceIfReachable);
    case FlagsUpdated(rows, now) => MapKeeps(db.cases, Flagged(rows, now), SinceIfReachable);
    case Requested(request, accounts) => UpdateKeeps(db, request, accounts);
  }

  lemma ApplyKeepsResolved(db: DB, a: Action, dirty: bool)
    requires Keys(db) && (dirty || All(ReachableIfResolved, db.cases))
    ensures a.UnreachableReopened? || (!dirty && !a.PingsUpdated?) ==> All(ReachableIfResolved, Apply(db, a).cases)
  {
    match a
    case ClientAdded(_, _) =>
    case ClientRemoved(id) => RemoveKeeps(db, id);
    case Synced(root) => SyncKeeps(db, root);
    case PingsUpdated(pings, now) =>
    case UnreachableReopened => MapKeeps(db.cases, Reopened(), ReachableIfResolved);
    case ReachableResolved => if !dirty { MapKeeps(db.cases, Resolved(), ReachableIfResolved); }
    case FlagsUpdated(rows, now) => if !dirty { MapKeeps(db.cases, Flagged(rows, now), ReachableIfResolved); }
    case Requested(request, accounts) => UpdateKeeps(db, request, accounts);
  }

  /**
   Over every interleaving of users and scheduler steps, aborted and repeated cycles included:
   resolved cases are reachable whenever no ping update is waiting for its reopening step.
   */
  lemma {:induction false} ResolvedAreReachable(actions: seq<Action>)
    ensures Dirty(actions) || All(ReachableIfResolved, Run(actions).cases)
  {
    if actions != [] {
      ResolvedAreReachable(Front(actions));
      RunKeys(Front(actions));
      ApplyKeepsResolved(Run(Front(actions)), Last(actions), Dirty(Front(actions)));
    }
  }

  lemma {:induction false} SinceIffReachable(actions: seq<Action>)
    ensures All(SinceIfReachable, Run(actions).cases)
  {
    if actions != [] {
      SinceIffReachable(Front(actions));
      RunKeys(Front(actions));
      ApplyKeepsSince(Run(Front(actions)), Last(actions));
    }
  }

  // ---- Permissions ----

  /** The statuses that automation must leave alone. */
  const IN_SOMEBODYS_HANDS := {IN_PROGRESS, DISCUSSING, IGNORED}

  /** An assigned case is changed by its assignee only, whoever else asks. */
  lemma OnlyAssigneeChanges(db: DB, r: Request, accounts: set<string>, i: nat)
    requires Keys(db) && i < |db.cases| && NonEmpty(db.cases[i].assignee) && db.cases[i].assignee != Some(r.user)
    ensures var db' := Update(db, r, accounts).0; i < |db'.cases| && db'.cases[i] == db.cases[i]
  {
    FindMeaning(db.cases, r.caseId);
  }

  /** Without assignee, a case gets one from managers only, and nothing else of it can change. */
  lemma UnassignedCase(c: Case, r: Request, accounts: set<string>)
    requires !NonEmpty(c.assignee) && c.assignee != Some(r.user)
    requires Edited(c, r, accounts).Ok? && Edited(c, r, accounts).value != c
    ensures var c' := Edited(c, r, accounts).value;
      && IsManager(r.role) && c' == c.(assignee := c'.assignee, status := c'.status)
      && (c'.assignee.Some? ==> c'.assignee.value in accounts)
  {
  }

  /** Who can change a case: its assignee, anybody if there is none, and whoever removes its client. */
  predicate Touches(a: Action, c: Case) {
    || a == ClientRemoved(c.clientId)
    || (a.Requested? && a.request.caseId == c.id && (NonEmpty(c.assignee) ==> c.assignee == Some(a.request.user)))
  }

  /** The same case with the same assignee and summary, and the same status if it is in somebody's hands. */
  predicate KeptAs(c: Case, c': Case) {
    && c'.id == c.id && c'.clientId == c.clientId && c'.assignee == c.assignee && c'.summary == c.summary
    && (c.status in IN_SOMEBODYS_HANDS ==> c'.status == c.status)
  }

  lemma StepKeepsCase(db: DB, a: Action, c: Case) returns (c': Case)
    requires Keys(db) && c in db.cases && !Touches(a, c)
    ensures c' in Apply(db, a).cases && KeptAs(c, c')
  {
    var i :| 0 <= i < |db.cases| && db.cases[i] == c;
    c' := c;
    match a
    case ClientAdded(_, _) =>
    case ClientRemoved(id) => FilterMember(db.cases, OfOthers(id), c);
    case Synced(root) => assert Sync(db, root).cases[i] == c;
    case PingsUpdated(pings, now) => c' := Apply(db, a).cases[i];
    case UnreachableReopened => c' := Apply(db, a).cases[i];
    case ReachableResolved => c' := Apply(db, a).cases[i];
    case FlagsUpdated(rows, now) => c' := Apply(db, a).cases[i];
    case Requested(request, accounts) =>
      UpdateKeys(db, request, accounts);
      FindMeaning(db.cases, request.caseId);
      if request.caseId == c.id { OnlyAssigneeChanges(db, request, accounts, i); }
      assert Apply(db, a).cases[i] == c;
  }

  /**
   Over every run from any point on, whatever the scheduler and other users do: a case keeps its
   assignee and summary, and its status while it is in somebody's hands, until its assignee asks for
   a change or its client is removed.
   */
  lemma {:induction false} HandsOff(before: seq<Action>, after: seq<Action>, c: Case) returns (c': Case)
    requires c in Run(before).cases && forall a :: a in after ==> !Touches(a, c)
    ensures c' in Run(before + after).cases && KeptAs(c, c')
  {
    if after == [] {
      assert before + after == before;
      c' := c;
    } else {
      var front, a := Front(after), Last(after);
      assert after == front + [a] && before + after == (before + front) + [a] && a in after;
      c' := HandsOff(before, front, c);
      RunKeys(before + front);
      RunNext(before + front, a);
      c' := StepKeepsCase(Run(before + front), a, c');
    }
  }

  lemma RunNext(actions: seq<Action>, a: Action)
    ensures Run(actions + [a]) == Apply(Run(actions), a)
  {
    assert Front(actions + [a]) == actions;
  }

  /** A bulk update of a table with one case. */
  lemma BulkNext(actions: seq<Action>, a: Action, c: Case)
    requires Run(actions).cases == [c] && (a.PingsUpdated? || a.UnreachableReopened? || a.ReachableResolved?)
    ensures Run(actions + [a]).cases == [
      match a
      case PingsUpdated(pings, now) => Pinged(pings, now)(c)
      case UnreachableReopened => Reopened()(c)
      case _ => Resolved()(c)]
  {
    RunNext(actions, a);
  }

  function UnassignedCaseOf(mac: string): Case {
    Case(1, 1, Text.Upper(mac), UNASSIGNED, None, None, None, None, Some(map[]))
  }

  lemma FirstSync(mac: string)
    ensures Run([ClientAdded(mac, None)] + [Synced(None)]) == DB([Client(1, mac, None)], [UnassignedCaseOf(mac)], 2, 2)
  {
    var client := Client(1, mac, None);
    RunNext([], ClientAdded(mac, None));
    assert [] + [ClientAdded(mac, None)] == [ClientAdded(mac, None)];
    RunNext([ClientAdded(mac, None)], Synced(None));
    assert [client][..0] == [];
    assert MissingCases([client], {}, None, 1) == [] + [NewCase(1, client, None)] == [NewCase(1, client, None)];
    assert CaseClients([]) == {};
    assert NewCase(1, client, None) == UnassignedCaseOf(mac);
  }

  // ---- Assigned without assignee ----

  predicate SomebodyIfAssigned(c: Case) {
    c.status == ASSIGNED ==> NonEmpty(c.assignee)
  }

  /** What makes a case ASSIGNED to nobody: reopening one without assignee, or a user without name. */
  ghost predicate Breaks(db: DB, a: Action) {
    match a
    case UnreachableReopened =>
      exists c :: c in db.cases && c.status == RESOLVED && c.ping != Some(true) && !NonEmpty(c.assignee)
    case Requested(r, _) =>
      && r.user == "" && r.status == Some("ASSIGNED") && r.assignee.None?
      && exists c :: c in db.cases && c.id == r.caseId && c.assignee == Some("")
    case _ => false
  }

  lemma EditKeepsSomebodyIff(c: Case, r: Request, accounts: set<string>)
    requires Edited(c, r, accounts).Ok? && SomebodyIfAssigned(c)
    ensures SomebodyIfAssigned(Edited(c, r, accounts).value) <==>
      !(r.user == "" && r.status == Some("ASSIGNED") && r.assignee.None? && c.assignee == Some(""))
  {
    EditDoesWhatItSays(c, r, accounts);
  }

  lemma RequestKeepsSomebodyIff(db: DB, r: Request, accounts: set<string>)
    requires Keys(db) && All(SomebodyIfAssigned, db.cases)
    ensures All(SomebodyIfAssigned, Update(db, r, accounts).0.cases) <==> !Breaks(db, Requested(r, accounts))
  {
    FindMeaning(db.cases, r.caseId);
    match Find(db.cases, r.caseId)
    case None =>
    case Some(i) =>
      var c := db.cases[i];
      assert c in db.cases;
      assert forall d :: d in db.cases && d.id == r.caseId ==> d == c;
      EditDoesWhatItSays(c, r, accounts);
      if Edited(c, r, accounts).Ok? {
        EditKeepsSomebodyIff(c, r, accounts);
        assert Update(db, r, accounts).0.cases[i] == Edited(c, r, accounts).value;
      }
  }

  lemma ReopenKeepsSomebodyIff(db: DB)
    requires All(SomebodyIfAssigned, db.cases)
    ensures All(SomebodyIfAssigned, Reopen(db).cases) <==> !Breaks(db, UnreachableReopened)
  {
    if c :| c in db.cases && c.status == RESOLVED && c.ping != Some(true) && !NonEmpty(c.assignee) {
      var i :| 0 <= i < |db.cases| && db.cases[i] == c;
      assert Reopen(db).cases[i] in Reopen(db).cases && !SomebodyIfAssigned(Reopen(db).cases[i]);
    } else {
      MapKeeps(db.cases, Reopened(), SomebodyIfAssigned);
    }
  }

  /** Step by step: "assigned" implies an assignee afterwards exactly if the step is not one of those. */
  lemma StepKeepsSomebodyIff(db: DB, a: Action)
    requires Keys(db) && All(SomebodyIfAssigned, db.cases)
    ensures All(SomebodyIfAssigned, Apply(db, a).cases) <==> !Breaks(db, a)
  {
    match a
    case ClientAdded(_, _) =>
    case ClientRemoved(id) => RemoveKeeps(db, id);
    case Synced(root) => MissingCasesFresh(db.clients, CaseClients(db.cases), root, db.nextCase);
    case PingsUpdated(pings, now) => MapKeeps(db.cases, Pinged(pings, now), SomebodyIfAssigned);
    case UnreachableReopened => ReopenKeepsSomebodyIff(db);
    case ReachableResolved => MapKeeps(db.cases, Resolved(), SomebodyIfAssigned);
    case FlagsUpdated(rows, now) => MapKeeps(db.cases, Flagged(rows, now), SomebodyIfAssigned);
    case Requested(request, accounts) => RequestKeepsSomebodyIff(db, request, accounts);
  }

  ghost predicate SomebodyAt(actions: seq<Action>, n: nat)
    requires n <= |actions|
  {
    All(SomebodyIfAssigned, Run(actions[..n]).cases)
  }

  lemma RunPrefix(actions: seq<Action>, n: nat)
    requires n < |actions|
    ensures Run(actions[..n + 1]) == Apply(Run(actions[..n]), actions[n])
  {
    TakeNext(actions, n);
    RunNext(actions[..n], actions[n]);
  }

  /**
   Over every run: all assigned cases have an assignee all the time exactly if no step of the run
   reopens a case without assignee (nor does a nameless user edit one).
   */
  lemma {:induction false} AssignedToSomebodyIff(actions: seq<Action>)
    ensures (forall n: nat :: n <= |actions| ==> SomebodyAt(actions, n)) <==>
      (forall n: nat :: n < |actions| ==> !Breaks(Run(actions[..n]), actions[n]))
  {
    if forall n: nat :: n <= |actions| ==> SomebodyAt(actions, n) {
      forall n: nat | n < |actions| ensures !Breaks(Run(actions[..n]), actions[n]) {
        assert SomebodyAt(actions, n) && SomebodyAt(actions, n + 1);
        RunPrefix(actions, n);
        RunKeys(actions[..n]);
        StepKeepsSomebodyIff(Run(actions[..n]), actions[n]);
      }
    }
    if forall n: nat :: n < |actions| ==> !Breaks(Run(actions[..n]), actions[n]) {
      forall n: nat | n <= |actions| ensures SomebodyAt(actions, n) { UnbrokenUntil(actions, n); }
    }
  }

  lemma {:induction false} UnbrokenUntil(actions: seq<Action>, n: nat)
    requires n <= |actions| && forall k: nat :: k < |actions| ==> !Breaks(Run(actions[..k]), actions[k])
    ensures SomebodyAt(actions, n)
  {
    if n > 0 {
      UnbrokenUntil(actions, n - 1);
      RunPrefix(actions, n - 1);
      RunKeys(actions[..n - 1]);
      StepKeepsSomebodyIff(Run(actions[..n - 1]), actions[n - 1]);
    }
  }

  /**
   "Assigned" does not imply an assignee: a case without one that was resolved by itself is reopened
   as assigned.
   */
  lemma AssignedWithoutAssignee(mac: string) returns (actions: seq<Action>)
    ensures Run(actions).cases == [UnassignedCaseOf(mac).(status := ASSIGNED, ping := Some(false))]
  {
    actions := ResolvedByItself(mac);
    var c := UnassignedCaseOf(mac).(status := RESOLVED, ping := Some(true), since := Some(0));
    var down := PingsUpdated(map[1 := Some(false)], 1);
    BulkNext(actions, down, c);
    c, actions := c.(ping := Some(false), since := None), actions + [down];
    BulkNext(actions, UnreachableReopened, c);
    actions := actions + [UnreachableReopened];
  }

  lemma ResolvedByItself(mac: string) returns (actions: seq<Action>)
    ensures Run(actions).cases == [UnassignedCaseOf(mac).(status := RESOLVED, ping := Some(true), since := Some(0))]
  {
    var c := UnassignedCaseOf(mac);
    FirstSync(mac);
    actions := [ClientAdded(mac, None)] + [Synced(None)];
    var up := PingsUpdated(map[1 := Some(true)], 0);
    BulkNext(actions, up, c);
    c, actions := c.(ping := Some(true), since := Some(0)), actions + [up];
    BulkNext(actions, ReachableResolved, c);
    actions := actions + [ReachableResolved];
  }

  // ---- A complete cycle ----

  function Cycle(db: DB, root: Option<string>, pings: map<nat, Option<bool>>, now: int): DB {
    Resolve(Reopen(UpdatePing(Sync(db, root), pings, now)))
  }

  /** What a cycle does to one case. */
  function CycleCase(c: Case, pings: map<nat, Option<bool>>, now: int): Case {
    Resolved()(Reopened()(Pinged(pings, now)(c)))
  }

  ghost predicate CycledFrom(cases: seq<Case>, cases': seq<Case>, pings: map<nat, Option<bool>>, now: int) {
    |cases'| == |cases| && forall i :: 0 <= i < |cases| ==> cases'[i] == CycleCase(cases[i], pings, now)
  }

  lemma PhasesCompose(cases: seq<Case>, pings: map<nat, Option<bool>>, now: int)
    ensures CycledFrom(cases, Map(Map(Map(cases, Pinged(pings, now)), Reopened()), Resolved()), pings, now)
  {
  }

  lemma CycleByCase(db: DB, root: Option<string>, pings: map<nat, Option<bool>>, now: int)
    ensures var db' := Cycle(db, root, pings, now);
      && CycledFrom(Sync(db, root).cases, db'.cases, pings, now)
      && db' == Sync(db, root).(cases := db'.cases)
  {
    PhasesCompose(Sync(db, root).cases, pings, now);
  }

  /** After a cycle: reachable cases are resolved or in somebody's hands, unreachable ones are not resolved. */
  predicate Settled(c: Case) {
    if c.ping == Some(true) then c.status == RESOLVED || c.status in IN_SOMEBODYS_HANDS else c.status != RESOLVED
  }

  /** Every listed client has exactly one case. */
  ghost predicate OneCaseEach(db: DB) {
    Keys(db) && CaseClients(db.cases) == ClientIds(db.clients)
  }

  lemma CaseSettles(c: Case, pings: map<nat, Option<bool>>, now: int)
    ensures Settled(CycleCase(c, pings, now))
    ensures CycleCase(c, pings, now).id == c.id && CycleCase(c, pings, now).clientId == c.clientId
  {
  }

  lemma CasesSettle(cases: seq<Case>, cases': seq<Case>, pings: map<nat, Option<bool>>, now: int)
    requires CycledFrom(cases, cases', pings, now)
    ensures SameKeys(cases, cases') && All(Settled, cases')
  {
    forall i | 0 <= i < |cases|
      ensures cases[i].id == cases'[i].id && cases[i].clientId == cases'[i].clientId && Settled(cases'[i])
    {
      CaseSettles(cases[i], pings, now);
    }
  }

  lemma CycleSettles(db: DB, root: Option<string>, pings: map<nat, Option<bool>>, now: int)
    requires Keys(db)
    ensures OneCaseEach(Cycle(db, root, pings, now)) && All(Settled, Cycle(db, root, pings, now).cases)
  {
    var synced, db' := Sync(db, root), Cycle(db, root, pings, now);
    CycleByCase(db, root, pings, now);
    CasesSettle(synced.cases, db'.cases, pings, now);
    SyncKeys(db, root);
    SameKeysKeep(synced, db');
    SyncCovers(db, root);
    SameClients(synced.cases, db'.cases);
  }

  lemma SyncCovers(db: DB, root: Option<string>)
    requires Keys(db)
    ensures CaseClients(Sync(db, root).cases) == ClientIds(db.clients)
  {
    var created := MissingCases(db.clients, CaseClients(db.cases), root, db.nextCase);
    MissingCasesClients(db.clients, CaseClients(db.cases), root, db.nextCase);
    assert CaseClients(db.cases + created) == CaseClients(db.cases) + CaseClients(created) by {
      assert forall c :: c in db.cases + created <==> c in db.cases || c in created;
    }
    forall id | id in CaseClients(db.cases) ensures id in ClientIds(db.clients) {
      var c :| c in db.cases && c.clientId == id;
    }
  }

  lemma SameClients(a: seq<Case>, b: seq<Case>)
    requires SameKeys(a, b)
    ensures CaseClients(a) == CaseClients(b)
  {
    forall id | id in CaseClients(a) ensures id in CaseClients(b) {
      var i :| 0 <= i < |a| && a[i].clientId == id;
      assert b[i] in b;
    }
    forall id | id in CaseClients(b) ensures id in CaseClients(a) {
      var i :| 0 <= i < |b| && b[i].clientId == id;
      assert a[i] in a;
    }
  }

  /** After a cycle each case shows the ping result that was read for its client, if any was. */
  lemma CycleShowsPings(db: DB, root: Option<string>, pings: map<nat, Option<bool>>, now: int)
    ensures forall c :: c in Cycle(db, root, pings, now).cases && c.clientId in pings ==> c.ping == pings[c.clientId]
  {
    CycleByCase(db, root, pings, now);
    var synced, cases' := Sync(db, root).cases, Cycle(db, root, pings, now).cases;
    forall c | c in cases' && c.clientId in pings ensures c.ping == pings[c.clientId] {
      var i :| 0 <= i < |cases'| && cases'[i] == c;
      assert c == CycleCase(synced[i], pings, now);
    }
  }

  predicate LeavesHeld(c: Case, c': Case) {
    && c' == c.(status := c'.status, ping := c'.ping, since := c'.since)
    && (c.status in IN_SOMEBODYS_HANDS || c'.status in IN_SOMEBODYS_HANDS ==> c'.status == c.status)
  }

  /** The cycle touches status and ping of existing cases only, and never takes a case out of somebody's hands. */
  lemma CycleRespectsHeld(db: DB, root: Option<string>, pings: map<nat, Option<bool>>, now: int, i: nat)
    requires i < |db.cases|
    ensures var cases' := Cycle(db, root, pings, now).cases; i < |cases'| && LeavesHeld(db.cases[i], cases'[i])
  {
    CycleByCase(db, root, pings, now);
    assert Sync(db, root).cases[i] == db.cases[i];
  }

  lemma CaseIdempotent(c: Case, pings: map<nat, Option<bool>>, now: int, later: int)
    ensures var c' := CycleCase(c, pings, now); CycleCase(c', pings, later) == c'
  {
  }

  /** Repeating a cycle on the same data changes nothing, however much later it runs. */
  lemma CycleIdempotent(db: DB, root: Option<string>, root': Option<string>, pings: map<nat, Option<bool>>,
                        now: int, later: int)
    requires Keys(db)
    ensures Cycle(Cycle(db, root, pings, now), root', pings, later) == Cycle(db, root, pings, now)
  {
    var synced, db' := Sync(db, root), Cycle(db, root, pings, now);
    CycleSettles(db, root, pings, now);
    SyncNothing(db', root');
    CycleByCase(db, root, pings, now);
    CycleByCase(db', root', pings, later);
    var db'' := Cycle(db', root', pings, later);
    forall i | 0 <= i < |db'.cases| ensures db''.cases[i] == db'.cases[i] {
      CaseIdempotent(synced.cases[i], pings, now, later);
    }
    assert db''.cases == db'.cases;
  }

  /** The four steps of the scheduler in a row are a cycle, and leave nothing waiting. */
  lemma CycleRun(actions: seq<Action>, root: Option<string>, pings: map<nat, Option<bool>>, now: int)
    ensures var all :=
        actions + [Synced(root)] + [PingsUpdated(pings, now)] + [UnreachableReopened] + [ReachableResolved];
      Run(all) == Cycle(Run(actions), root, pings, now) && !Dirty(all)
  {
    var a1 := actions + [Synced(root)];
    var a2 := a1 + [PingsUpdated(pings, now)];
    var a3 := a2 + [UnreachableReopened];
    RunNext(actions, Synced(root));
    RunNext(a1, PingsUpdated(pings, now));
    RunNext(a2, UnreachableReopened);
    RunNext(a3, ReachableResolved);
    assert Front(a3 + [ReachableResolved]) == a3;
  }

  lemma SyncNothing(db: DB, root: Option<string>)
    requires OneCaseEach(db)
    ensures Sync(db, root) == db
  {
    NoMissingCases(db.clients, CaseClients(db.cases), root, db.nextCase);
  }

  lemma {:induction false} NoMissingCases(clients: seq<Client>, existing: set<nat>, root: Option<string>, nextId: nat)
    requires ClientIds(clients) <= existing
    ensures MissingCases(clients, existing, root, nextId) == []
  {
    if clients != [] {
      assert Last(clients) in clients;
      assert forall c :: c in Front(clients) ==> c in clients;
      NoMissingCases(Front(clients), existing, root, nextId);
    }
  }

  // ---- Since when a client has been reachable ----

  datatype PingUpdate = PingUpdate(ping: Option<bool>, at: int)

  predicate HasCase(db: DB, client: nat) {
    client in CaseClients(db.cases)
  }

  /** The ping updates that the client's present case has seen. */
  function PingHistory(actions: seq<Action>, client: nat): seq<PingUpdate> {
    if actions == [] then []
    else
      var before := PingHistory(Front(actions), client);
      match Last(actions)
      case PingsUpdated(pings, now) =>
        if client in pings && HasCase(Run(Front(actions)), client) then before + [PingUpdate(pings[client], now)]
        else before
      case ClientRemoved(id) => if id == client then [] else before
      case _ => before
  }

  /** `k` is where the unbroken run of reachable updates at the end of the history starts. */
  ghost predicate RunStart(h: seq<PingUpdate>, k: nat) {
    && k < |h| && (forall i :: k <= i < |h| ==> h[i].ping == Some(true))
    && (k > 0 ==> h[k - 1].ping != Some(true))
  }

  /** What a case records of its ping history. */
  ghost predicate Records(c: Case, h: seq<PingUpdate>) {
    && c.ping == (if h == [] then None else Last(h).ping)
    && (if c.since.Some? then exists k: nat :: RunStart(h, k) && h[k].at == c.since.value else c.ping != Some(true))
  }

  lemma PingRecords(c: Case, h: seq<PingUpdate>, ping: Option<bool>, now: int, pings: map<nat, Option<bool>>)
    requires Records(c, h) && SinceIfReachable(c) && c.clientId in pings && pings[c.clientId] == ping
    ensures Records(Pinged(pings, now)(c), h + [PingUpdate(ping, now)])
  {
    var h' := h + [PingUpdate(ping, now)];
    if ping == Some(true) {
      if c.since.Some? {
        var k: nat :| RunStart(h, k) && h[k].at == c.since.value;
        assert RunStart(h', k);
      } else {
        assert RunStart(h', |h|);
      }
    }
  }

  ghost predicate AllRecord(actions: seq<Action>) {
    forall c :: c in Run(actions).cases ==> Records(c, PingHistory(actions, c.clientId))
  }

  lemma NoCaseNoHistory(actions: seq<Action>, client: nat)
    requires Keys(Run(actions)) && !HasCase(Run(actions), client)
    ensures PingHistory(actions, client) == []
  {
    if actions != [] {
      RunKeys(Front(actions));
      var db := Run(Front(actions));
      if HasCase(db, client) {
        CaseGoneByRemoval(db, Last(actions), client);
      } else {
        NoCaseNoHistory(Front(actions), client);
      }
    }
  }

  lemma InSync(db: DB, root: Option<string>, c: Case)
    requires c in db.cases
    ensures HasCase(Sync(db, root), c.clientId)
  {
    assert c in Sync(db, root).cases;
  }

  lemma CaseGoneByRemoval(db: DB, a: Action, client: nat)
    requires Keys(db) && HasCase(db, client) && !HasCase(Apply(db, a), client)
    ensures a == ClientRemoved(client)
  {
    var c :| c in db.cases && c.clientId == client;
    match a
    case ClientAdded(_, _) =>
    case ClientRemoved(id) => FilterMember(db.cases, OfOthers(id), c);
    case Synced(root) => InSync(db, root, c);
    case PingsUpdated(pings, now) => SameClients(db.cases, Apply(db, a).cases);
    case UnreachableReopened => SameClients(db.cases, Apply(db, a).cases);
    case ReachableResolved => SameClients(db.cases, Apply(db, a).cases);
    case FlagsUpdated(rows, now) => SameClients(db.cases, Apply(db, a).cases);
    case Requested(request, accounts) =>
      UpdateKeys(db, request, accounts);
      SameClients(db.cases, Apply(db, a).cases);
  }

  /** How a case of the new state came about from the old one. */
  lemma CaseOrigin(db: DB, a: Action, c': Case) returns (c: Case)
    requires Keys(db) && c' in Apply(db, a).cases
    ensures if HasCase(db, c'.clientId)
      then c in db.cases && c.clientId == c'.clientId && (a.PingsUpdated? || (c.ping == c'.ping && c.since == c'.since))
      else c'.ping.None? && c'.since.None?
    ensures a.PingsUpdated? ==> c in db.cases && c' == Pinged(a.pings, a.now)(c)
    ensures a != ClientRemoved(c'.clientId)
  {
    var cases' := Apply(db, a).cases;
    var i :| 0 <= i < |cases'| && cases'[i] == c';
    c := c';
    match a
    case ClientAdded(_, _) =>
    case ClientRemoved(id) => FilterMember(db.cases, OfOthers(id), c');
    case Synced(root) =>
      MissingCasesClients(db.clients, CaseClients(db.cases), root, db.nextCase);
      MissingCasesFresh(db.clients, CaseClients(db.cases), root, db.nextCase);
      if i >= |db.cases| {
        var created := MissingCases(db.clients, CaseClients(db.cases), root, db.nextCase);
        assert c' in created && c'.clientId in CaseClients(created);
      }
    case PingsUpdated(pings, now) => c := db.cases[i];
    case UnreachableReopened => c := db.cases[i];
    case ReachableResolved => c := db.cases[i];
    case FlagsUpdated(rows, now) => c := db.cases[i];
    case Requested(request, accounts) =>
      UpdateKeys(db, request, accounts);
      c := db.cases[i];
      FindMeaning(db.cases, request.caseId);
      if Update(db, request, accounts).1.None? {
        EditKeeps(db.cases[Find(db.cases, request.caseId).value], request, accounts);
      }
  }

  /**
   Over every run, a case holds the last ping result it was given, and the since-time is the time of
   the first update of the present unbroken run of reachable ones.
   */
  lemma {:induction false} SinceIsRunStart(actions: seq<Action>)
    ensures AllRecord(actions)
  {
    if actions != [] {
      var front, a := Front(actions), Last(actions);
      SinceIsRunStart(front);
      SinceIffReachable(front);
      RunKeys(front);
      forall c' | c' in Run(actions).cases ensures Records(c', PingHistory(actions, c'.clientId)) {
        RecordsNext(front, a, c');
        assert Front(front + [a]) == front && actions == front + [a];
      }
    }
  }

  lemma RecordsNext(front: seq<Action>, a: Action, c': Case)
    requires AllRecord(front) && All(SinceIfReachable, Run(front).cases) && Keys(Run(front))
    requires c' in Apply(Run(front), a).cases
    ensures Records(c', PingHistory(front + [a], c'.clientId))
  {
    var db := Run(front);
    assert Front(front + [a]) == front;
    var c := CaseOrigin(db, a, c');
    if HasCase(db, c'.clientId) {
      if a.PingsUpdated? && c.clientId in a.pings {
        PingRecords(c, PingHistory(front, c.clientId), a.pings[c.clientId], a.now, a.pings);
      }
    } else {
      NoCaseNoHistory(front, c'.clientId);
    }
  }
}
