/**
 The case table of one maintenance (app/services/case_service.py) on values: every committed change
 that users and the scheduler make to it, and what holds over all their interleavings.
 */
module CaseTable {
  import opened Wrappers
  import opened Seqs
  import opened Text
  import ClientChanges
  import RecordQueries

  datatype Status = UNASSIGNED | ASSIGNED | IN_PROGRESS | DISCUSSING | RESOLVED | IGNORED

  datatype Client = Client(id: nat, mac: string, defaultAssignee: Option<string>)

  datatype Case = Case(
    id: nat, clientId: nat, mac: string, status: Status, assignee: Option<string>, summary: Option<string>,
    ping: Option<bool>,       // last_ping_reachable
    since: Option<int>,       // ping_reachable_since
    flags: Option<RecordQueries.Flags>)   // change_flags

  datatype DB = DB(clients: seq<Client>, cases: seq<Case>, nextClient: nat, nextCase: nat)

  const EMPTY := DB([], [], 1, 1)

  // ---- Synchronisation with the client list ----

  function ClientIds(clients: seq<Client>): set<nat> {
    set c | c in clients :: c.id
  }

  function CaseClients(cases: seq<Case>): set<nat> {
    set c | c in cases :: c.clientId
  }

  function NewCase(id: nat, client: Client, root: Option<string>): Case {
    var assignee := if NonEmpty(client.defaultAssignee) then client.defaultAssignee else root;
    var status := if NonEmpty(assignee) then ASSIGNED else UNASSIGNED;
    Case(id, client.id, Upper(client.mac), status, assignee, None, None, None, Some(map[]))
  }

  /** The cases to create for the clients that have none. */
  function MissingCases(clients: seq<Client>, existing: set<nat>, root: Option<string>, nextId: nat): seq<Case> {
    if clients == [] then []
    else
      var before := MissingCases(clients[..|clients| - 1], existing, root, nextId);
      if Last(clients).id in existing then before else before + [NewCase(nextId + |before|, Last(clients), root)]
  }

  /** `sync_cases`; `root` is the display name of an active ROOT user, if there is one. */
  function Sync(db: DB, root: Option<string>): DB {
    var created := MissingCases(db.clients, CaseClients(db.cases), root, db.nextCase);
    db.(cases := db.cases + created, nextCase := db.nextCase + |created|)
  }

  // ---- The scheduler's bulk updates ----

  /** Anti-flapping: a reachable client keeps the time since which it has been reachable. */
  function Pinged(pings: map<nat, Option<bool>>, now: int): Case -> Case {
    (c: Case) =>
      if c.clientId !in pings then c
      else
        var p := pings[c.clientId];
        c.(ping := p,
           since := if p != Some(true) then None
                    else if c.ping == Some(true) && c.since.Some? then c.since
                    else Some(now))
  }

  /** `update_ping_status`; `pings` is the newest recorded ping result of each client that has a record. */
  function UpdatePing(db: DB, pings: map<nat, Option<bool>>, now: int): DB {
    db.(cases := Map(db.cases, Pinged(pings, now)))
  }

  function Reopened(): Case -> Case {
    (c: Case) => if c.status == RESOLVED && c.ping != Some(true) then c.(status := ASSIGNED) else c
  }

  /** `auto_reopen_unreachable` */
  function Reopen(db: DB): DB {
    db.(cases := Map(db.cases, Reopened()))
  }

  predicate IsHeld(s: Status) {
    s == IN_PROGRESS || s == DISCUSSING || s == IGNORED
  }

  function Resolved(): Case -> Case {
    (c: Case) => if c.ping == Some(true) && !IsHeld(c.status) then c.(status := RESOLVED) else c
  }

  /** `auto_resolve_reachable` */
  function Resolve(db: DB): DB {
    db.(cases := Map(db.cases, Resolved()))
  }

  function Flagged(rows: seq<ClientChanges.Row>, now: int): Case -> Case {
    (c: Case) => c.(flags := Some(RecordQueries.FlagsOf(RecordQueries.HistoryOf(rows, c.clientId), now)))
  }

  /** `update_change_flags` */
  function UpdateFlags(db: DB, rows: seq<ClientChanges.Row>, now: int): DB {
    db.(cases := Map(db.cases, Flagged(rows, now)))
  }

  // ---- A user's update ----

  datatype Request = Request(
    caseId: nat, user: string, role: string, summary: Option<string>, status: Option<string>, assignee: Option<string>)

  datatype UpdateError =
    | NotFound
    | OnlyAssigneeMayEdit
    | OnlyAssigneeMayTransfer
    | ResolvedCannotBeTransferred
    | OnlyManagersMayAssign
    | UnknownStatus
    | UnreachableCannotBeResolved
    | UnknownUser

  function ParseStatus(s: string): Option<Status> {
    match s
    case "UNASSIGNED" => Some(UNASSIGNED)
    case "ASSIGNED" => Some(ASSIGNED)
    case "IN_PROGRESS" => Some(IN_PROGRESS)
    case "DISCUSSING" => Some(DISCUSSING)
    case "RESOLVED" => Some(RESOLVED)
    case "IGNORED" => Some(IGNORED)
    case _ => None
  }

  predicate IsManager(role: string) {
    role == "ROOT" || role == "PM"
  }

  predicate IsAssignee(c: Case, user: string) {
    c.assignee == Some(user)
  }

  /** The permission rules, in the order the code checks them. */
  function Permitted(c: Case, r: Request): Option<UpdateError> {
    if (r.summary.Some? || r.status.Some?) && !IsAssignee(c, r.user) then Some(OnlyAssigneeMayEdit)
    else if r.assignee.None? then None
    else if NonEmpty(c.assignee) then
      if !IsAssignee(c, r.user) then Some(OnlyAssigneeMayTransfer)
      else if c.status == RESOLVED then Some(ResolvedCannotBeTransferred)
      else None
    else if !IsManager(r.role) then Some(OnlyManagersMayAssign)
    else None
  }

  function WithSummary(c: Case, summary: Option<string>): Case {
    match summary
    case None => c
    case Some(text) => c.(summary := if text == "" then None else Some(Strip(text)))
  }

  function WithStatus(c: Case, status: Option<string>): Result<Case, UpdateError> {
    match status
    case None => Ok(c)
    case Some(name) =>
      match ParseStatus(name)
      case None => Err(UnknownStatus)
      case Some(s) =>
        if s == RESOLVED && c.ping != Some(true) then Err(UnreachableCannotBeResolved) else Ok(c.(status := s))
  }

  function WithAssignee(c: Case, assignee: Option<string>, accounts: set<string>): Result<Case, UpdateError> {
    match assignee
    case None => Ok(c)
    case Some(name) =>
      if name == "" then Ok(c.(assignee := None, status := UNASSIGNED))
      else if name !in accounts then Err(UnknownUser)
      else Ok(c.(assignee := Some(name), status := if c.status == UNASSIGNED then ASSIGNED else c.status))
  }

  /** The case after the request, or the reason why nothing changes. */
  function Edited(c: Case, r: Request, accounts: set<string>): Result<Case, UpdateError> {
    match Permitted(c, r)
    case Some(error) => Err(error)
    case None =>
      match WithStatus(WithSummary(c, r.summary), r.status)
      case Err(error) => Err(error)
      case Ok(c') => WithAssignee(c', r.assignee, accounts)
  }

  function Find(cases: seq<Case>, id: nat): Option<nat> {
    if cases == [] then None
    else if Last(cases).id == id then Some(|cases| - 1)
    else Find(cases[..|cases| - 1], id)
  }

  lemma {:induction false} FindMeaning(cases: seq<Case>, id: nat)
    ensures match Find(cases, id)
      case Some(i) => i < |cases| && cases[i].id == id
      case None => forall c :: c in cases ==> c.id != id
  {
    if cases != [] {
      assert cases == cases[..|cases| - 1] + [Last(cases)];
      FindMeaning(cases[..|cases| - 1], id);
    }
  }

  /** `update_case`; an error leaves the session uncommitted. */
  function Update(db: DB, r: Request, accounts: set<string>): (DB, Option<UpdateError>) {
    FindMeaning(db.cases, r.caseId);
    match Find(db.cases, r.caseId)
    case None => (db, Some(NotFound))
    case Some(i) =>
      match Edited(db.cases[i], r, accounts)
      case Err(error) => (db, Some(error))
      case Ok(c) => (db.(cases := db.cases[i := c]), None)
  }

  // ---- The client list ----

  function AddClient(db: DB, mac: string, defaultAssignee: Option<string>): DB {
    db.(clients := db.clients + [Client(db.nextClient, mac, defaultAssignee)], nextClient := db.nextClient + 1)
  }

  function OtherClient(id: nat): Client -> bool {
    (c: Client) => c.id != id
  }

  function OfOthers(id: nat): Case -> bool {
    (c: Case) => c.clientId != id
  }

  /** The foreign key deletes the client's case with it. */
  function RemoveClient(db: DB, id: nat): DB {
    db.(clients := Filter(db.clients, OtherClient(id)), cases := Filter(db.cases, OfOthers(id)))
  }

  // ---- Runs ----

  datatype Action =
    | ClientAdded(mac: string, defaultAssignee: Option<string>)
    | ClientRemoved(id: nat)
    | Synced(root: Option<string>)
    | PingsUpdated(pings: map<nat, Option<bool>>, now: int)
    | UnreachableReopened
    | ReachableResolved
    | FlagsUpdated(rows: seq<ClientChanges.Row>, now: int)
    | Requested(request: Request, accounts: set<string>)

  function Apply(db: DB, a: Action): DB {
    match a
    case ClientAdded(mac, defaultAssignee) => AddClient(db, mac, defaultAssignee)
    case ClientRemoved(id) => RemoveClient(db, id)
    case Synced(root) => Sync(db, root)
    case PingsUpdated(pings, now) => UpdatePing(db, pings, now)
    case UnreachableReopened => Reopen(db)
    case ReachableResolved => Resolve(db)
    case FlagsUpdated(rows, now) => UpdateFlags(db, rows, now)
    case Requested(request, accounts) => Update(db, request, accounts).0
  }

  function Run(actions: seq<Action>): DB {
    if actions == [] then EMPTY else Apply(Run(actions[..|actions| - 1]), Last(actions))
  }

  // ---- Keys ----

  ghost predicate Keys(db: DB) {
    && (forall i, j :: 0 <= i < j < |db.clients| ==> db.clients[i].id != db.clients[j].id)
    && (forall c :: c in db.clients ==> c.id < db.nextClient)
    && (forall i, j :: 0 <= i < j < |db.cases| ==>
        db.cases[i].id != db.cases[j].id && db.cases[i].clientId != db.cases[j].clientId)
    && (forall c :: c in db.cases ==> c.id < db.nextCase && c.clientId in ClientIds(db.clients))
  }

  /** Which case belongs to which client does not change. */
  ghost predicate SameKeys(a: seq<Case>, b: seq<Case>) {
    |a| == |b| && forall i :: 0 <= i < |a| ==> a[i].id == b[i].id && a[i].clientId == b[i].clientId
  }

  lemma SameKeysKeep(db: DB, db': DB)
    requires Keys(db) && SameKeys(db.cases, db'.cases) && db'.clients == db.clients
    requires db'.nextCase == db.nextCase && db'.nextClient == db.nextClient
    ensures Keys(db')
  {
    forall c | c in db'.cases ensures c.id < db'.nextCase && c.clientId in ClientIds(db'.clients) {
      var i :| 0 <= i < |db'.cases| && db'.cases[i] == c;
      assert db.cases[i] in db.cases;
    }
  }

  lemma UpdateKeys(db: DB, r: Request, accounts: set<string>)
    ensures SameKeys(db.cases, Update(db, r, accounts).0.cases)
    ensures Update(db, r, accounts).0 == db.(cases := Update(db, r, accounts).0.cases)
  {
    FindMeaning(db.cases, r.caseId);
  }

  lemma {:induction false} MissingCasesFresh(clients: seq<Client>, existing: set<nat>, root: Option<string>,
                                             nextId: nat)
    ensures var created := MissingCases(clients, existing, root, nextId);
      && (forall i :: 0 <= i < |created| ==> created[i].id == nextId + i)
      && (forall c :: c in created ==> c.status != RESOLVED && c.ping.None? && c.since.None?)
      && (forall c :: c in created ==> c.status == if NonEmpty(c.assignee) then ASSIGNED else UNASSIGNED)
  {
    if clients != [] {
      var front := clients[..|clients| - 1];
      MissingCasesFresh(front, existing, root, nextId);
      var before, created := MissingCases(front, existing, root, nextId), MissingCases(clients, existing, root, nextId);
      assert forall i :: 0 <= i < |before| ==> created[i] == before[i];
    }
  }

  lemma CaseClientsAppend(cases: seq<Case>, c: Case)
    ensures CaseClients(cases + [c]) == CaseClients(cases) + {c.clientId}
  {
    assert forall x :: x in cases + [c] <==> x in cases || x == c;
  }

  lemma ClientIdsAppend(clients: seq<Client>, c: Client)
    ensures ClientIds(clients + [c]) == ClientIds(clients) + {c.id}
  {
    assert forall x :: x in clients + [c] <==> x in clients || x == c;
  }

  /** One new case for each client that has none. */
  lemma {:induction false} MissingCasesClients(clients: seq<Client>, existing: set<nat>, root: Option<string>,
                                               nextId: nat)
    requires forall i, j :: 0 <= i < j < |clients| ==> clients[i].id != clients[j].id
    ensures var created := MissingCases(clients, existing, root, nextId);
      && (forall i, j :: 0 <= i < j < |created| ==> created[i].clientId != created[j].clientId)
      && CaseClients(created) == ClientIds(clients) - existing
  {
    if clients != [] {
      var front, last := clients[..|clients| - 1], Last(clients);
      MissingCasesClients(front, existing, root, nextId);
      var before := MissingCases(front, existing, root, nextId);
      assert clients == front + [last];
      ClientIdsAppend(front, last);
      CaseClientsAppend(before, NewCase(nextId + |before|, last, root));
      assert last.id !in ClientIds(front);
      forall i | 0 <= i < |before| ensures before[i].clientId != last.id {
        assert before[i].clientId in CaseClients(before);
      }
    }
  }

  lemma SyncKeys(db: DB, root: Option<string>)
    requires Keys(db)
    ensures Keys(Sync(db, root))
  {
    var created := MissingCases(db.clients, CaseClients(db.cases), root, db.nextCase);
    MissingCasesClients(db.clients, CaseClients(db.cases), root, db.nextCase);
    MissingCasesFresh(db.clients, CaseClients(db.cases), root, db.nextCase);
    var all := db.cases + created;
    forall i, j | 0 <= i < j < |all| ensures all[i].id != all[j].id && all[i].clientId != all[j].clientId {
      if i < |db.cases| <= j {
        assert all[i] in db.cases && all[j] in created;
        assert all[j].clientId in CaseClients(created);
      }
    }
    forall c | c in all ensures c.id < db.nextCase + |created| && c.clientId in ClientIds(db.clients) {
      if c in created { assert c.clientId in CaseClients(created); }
    }
  }

  lemma RemoveKeys(db: DB, id: nat)
    requires Keys(db)
    ensures Keys(RemoveClient(db, id))
  {
    var db' := RemoveClient(db, id);
    FilterOrdered(db.clients, OtherClient(id), (a: Client, b: Client) => a.id != b.id);
    FilterOrdered(db.cases, OfOthers(id), (a: Case, b: Case) => a.id != b.id && a.clientId != b.clientId);
    forall c | c in db'.clients ensures c.id < db'.nextClient { FilterMember(db.clients, OtherClient(id), c); }
    forall c | c in db'.cases ensures c.id < db'.nextCase && c.clientId in ClientIds(db'.clients) {
      FilterMember(db.cases, OfOthers(id), c);
      var k :| k in db.clients && k.id == c.clientId;
      FilterMember(db.clients, OtherClient(id), k);
    }
  }

  lemma ApplyKeys(db: DB, a: Action)
    requires Keys(db)
    ensures Keys(Apply(db, a))
  {
    match a
    case ClientAdded(mac, defaultAssignee) =>
    case ClientRemoved(id) => RemoveKeys(db, id);
    case Synced(root) => SyncKeys(db, root);
    case PingsUpdated(pings, now) => SameKeysKeep(db, Apply(db, a));
    case UnreachableReopened => SameKeysKeep(db, Apply(db, a));
    case ReachableResolved => SameKeysKeep(db, Apply(db, a));
    case FlagsUpdated(rows, now) => SameKeysKeep(db, Apply(db, a));
    case Requested(request, accounts) =>
      UpdateKeys(db, request, accounts);
      SameKeysKeep(db, Apply(db, a));
  }

  /** Over every run each client has at most one case, and each case a listed client. */
  lemma {:induction false} RunKeys(actions: seq<Action>)
    ensures Keys(Run(actions))
  {
    if actions != [] {
      RunKeys(actions[..|actions| - 1]);
      ApplyKeys(Run(actions[..|actions| - 1]), Last(actions));
    }
  }
}
