/**
 `CaseService` (app/services/case_service.py) on a case table changed in place, and the order in which
 the scheduler calls it (app/services/scheduler.py).
 */
module CaseService {
  import opened Wrappers
  import opened Seqs
  import opened Text
  import opened CaseTable
  import CaseLifecycle
  import ClientChanges
  import RecordQueries

  function Restrict(pings: map<nat, Option<bool>>, done: set<nat>): map<nat, Option<bool>> {
    map k | k in pings && k in done :: pings[k]
  }

  function SetPing(client: nat, ping: Option<bool>, since: Option<int>): Case -> Case {
    (c: Case) => if c.clientId == client then c.(ping := ping, since := since) else c
  }

  function NeedsReopening(): Case -> bool {
    (c: Case) => c.status == RESOLVED && c.ping != Some(true)
  }

  function NeedsResolving(): Case -> bool {
    (c: Case) => c.ping == Some(true) && !IsHeld(c.status) && c.status != RESOLVED
  }

  /** Rewriting the cases of one more client. */
  lemma PingedNext(cases: seq<Case>, pings: map<nat, Option<bool>>, done: set<nat>, client: nat, now: int,
                   since: Option<int>)
    requires client in pings && client !in done
    requires forall c :: c in cases && c.clientId == client ==>
      since == if pings[client] != Some(true) then None
               else if c.ping == Some(true) && c.since.Some? then c.since
               else Some(now)
    ensures Map(Map(cases, Pinged(Restrict(pings, done), now)), SetPing(client, pings[client], since))
      == Map(cases, Pinged(Restrict(pings, done + {client}), now))
  {
    forall i | 0 <= i < |cases|
      ensures SetPing(client, pings[client], since)(Pinged(Restrict(pings, done), now)(cases[i]))
        == Pinged(Restrict(pings, done + {client}), now)(cases[i])
    {
      assert cases[i] in cases;
    }
  }

  lemma MissingNext(clients: seq<Client>, i: nat, existing: set<nat>, root: Option<string>, nextId: nat)
    requires i < |clients|
    ensures MissingCases(clients[..i + 1], existing, root, nextId) ==
      var before := MissingCases(clients[..i], existing, root, nextId);
      if clients[i].id in existing then before else before + [NewCase(nextId + |before|, clients[i], root)]
  {
    TakeNext(clients, i);
    assert clients[..i + 1][..i] == clients[..i];
  }

  method CreateCases(clients: seq<Client>, existing: set<nat>, root: Option<string>, nextId: nat)
    returns (created: seq<Case>)
    ensures created == MissingCases(clients, existing, root, nextId)
  {
    created := [];
    for i := 0 to |clients|
      invariant created == MissingCases(clients[..i], existing, root, nextId)
    {
      MissingNext(clients, i, existing, root, nextId);
      var client := clients[i];
      if client.id !in existing {
        var assignee := if NonEmpty(client.defaultAssignee) then client.defaultAssignee else root;
        var status := if NonEmpty(assignee) then ASSIGNED else UNASSIGNED;
        var id := nextId + |created|;
        created := created + [Case(id, client.id, Upper(client.mac), status, assignee, None, None, None, Some(map[]))];
      }
    }
    assert clients[..|clients|] == clients;
  }

  method SinceFor(ping: Option<bool>, wasReachable: Option<bool>, since: Option<int>, now: int)
    returns (newSince: Option<int>)
    ensures newSince == if ping != Some(true) then None
                        else if wasReachable == Some(true) && since.Some? then since
                        else Some(now)
  {
    if ping == Some(true) {
      if wasReachable == Some(true) && since.Some? {
        newSince := since;
      } else {
        newSince := Some(now);
      }
    } else {
      newSince := None;
    }
  }

  /** One UPDATE per client with a ping result; the states before are read once. */
  method WritePings(cases: seq<Case>, pings: map<nat, Option<bool>>, now: int) returns (updated: seq<Case>)
    requires forall i, j :: 0 <= i < j < |cases| ==> cases[i].clientId != cases[j].clientId
    ensures updated == Map(cases, Pinged(pings, now))
  {
    OneStatePerClient(cases);
    var states := map c | c in cases :: c.clientId := (c.ping, c.since);
    var rest := pings.Keys;
    NothingPinged(cases, pings, now);
    updated := cases;
    while rest != {}
      invariant rest <= pings.Keys
      invariant updated == Map(cases, Pinged(Restrict(pings, pings.Keys - rest), now))
      decreases rest
    {
      var client :| client in rest;
      var before := if client in states then states[client] else (None, None);
      var since := SinceFor(pings[client], before.0, before.1, now);
      PingedNext(cases, pings, pings.Keys - rest, client, now, since);
      OneLess(pings.Keys, rest, client);
      updated := Map(updated, SetPing(client, pings[client], since));
      rest := rest - {client};
    }
    assert Restrict(pings, pings.Keys - {}) == pings;
  }

  function SetFlags(id: nat, flags: RecordQueries.Flags): Case -> Case {
    (c: Case) => if c.id == id then c.(flags := Some(flags)) else c
  }

  /** Rewriting one more case. */
  lemma FlaggedNext(cases: seq<Case>, i: nat, rows: seq<ClientChanges.Row>, now: int)
    requires i < |cases| && forall j, k :: 0 <= j < k < |cases| ==> cases[j].id != cases[k].id
    ensures var flags := RecordQueries.FlagsOf(RecordQueries.HistoryOf(rows, cases[i].clientId), now);
      Map(Map(cases[..i], Flagged(rows, now)) + cases[i..], SetFlags(cases[i].id, flags))
        == Map(cases[..i + 1], Flagged(rows, now)) + cases[i + 1..]
  {
  }

  /** One UPDATE per case; the records are read once. */
  method WriteFlags(cases: seq<Case>, rows: seq<ClientChanges.Row>, now: int) returns (updated: seq<Case>)
    requires forall i, j :: 0 <= i < j < |cases| ==> cases[i].id != cases[j].id
    ensures updated == Map(cases, Flagged(rows, now))
  {
    var groups := RecordQueries.GroupByClient(rows);
    updated := cases;
    for i := 0 to |cases|
      invariant updated == Map(cases[..i], Flagged(rows, now)) + cases[i..]
    {
      var records := if cases[i].clientId in groups then groups[cases[i].clientId] else [];
      var flags := RecordQueries.ComputeFlags(records, now);
      FlaggedNext(cases, i, rows, now);
      updated := Map(updated, SetFlags(cases[i].id, flags));
    }
    assert cases[..|cases|] == cases;
  }

  lemma FlagsKeepSettled(db: DB, rows: seq<ClientChanges.Row>, now: int)
    requires CaseLifecycle.OneCaseEach(db) && CaseLifecycle.All(CaseLifecycle.Settled, db.cases)
    ensures var db' := UpdateFlags(db, rows, now);
      CaseLifecycle.OneCaseEach(db') && CaseLifecycle.All(CaseLifecycle.Settled, db'.cases)
  {
    var db' := UpdateFlags(db, rows, now);
    CaseLifecycle.MapKeeps(db.cases, Flagged(rows, now), CaseLifecycle.Settled);
    SameKeysKeep(db, db');
    CaseLifecycle.SameClients(db.cases, db'.cases);
  }

  /** The five steps of the scheduler in a row. */
  lemma RoundSettles(history: seq<Action>, root: Option<string>, rows: seq<ClientChanges.Row>, now: int, later: int)
    ensures var pings := RecordQueries.NewestPings(rows);
      var all := history + [Synced(root)] + [PingsUpdated(pings, now)] + [UnreachableReopened] + [ReachableResolved]
        + [FlagsUpdated(rows, later)];
      && Run(all) == UpdateFlags(CaseLifecycle.Cycle(Run(history), root, pings, now), rows, later)
      && CaseLifecycle.OneCaseEach(Run(all)) && CaseLifecycle.All(CaseLifecycle.Settled, Run(all).cases)
  {
    var pings := RecordQueries.NewestPings(rows);
    var four := history + [Synced(root)] + [PingsUpdated(pings, now)] + [UnreachableReopened] + [ReachableResolved];
    CaseTable.RunKeys(history);
    CaseLifecycle.CycleRun(history, root, pings, now);
    CaseLifecycle.CycleSettles(Run(history), root, pings, now);
    CaseLifecycle.RunNext(four, FlagsUpdated(rows, later));
    FlagsKeepSettled(Run(four), rows, later);
  }

  lemma OneLess(all: set<nat>, rest: set<nat>, x: nat)
    requires rest <= all && x in rest
    ensures all - rest + {x} == all - (rest - {x})
  {
  }

  class CaseStore {
    var clients: seq<Client>
    var cases: seq<Case>
    var nextClient: nat
    var nextCase: nat
    ghost var history: seq<Action>

    ghost function Abs(): DB
      reads this
    {
      DB(clients, cases, nextClient, nextCase)
    }

    ghost predicate Valid()
      reads this
    {
      Abs() == Run(history)
    }

    constructor ()
      ensures Valid() && history == []
    {
      clients, cases, nextClient, nextCase, history := [], [], 1, 1, [];
    }

    /** Records a change that has already been made. */
    ghost method Commit(a: Action)
      requires Abs() == Apply(Run(history), a)
      modifies this`history
      ensures Valid() && history == old(history) + [a]
    {
      CaseLifecycle.RunNext(history, a);
      history := history + [a];
    }

    method AddClient(mac: string, defaultAssignee: Option<string>)
      requires Valid()
      modifies this
      ensures Valid() && history == old(history) + [ClientAdded(mac, defaultAssignee)]
    {
      clients := clients + [Client(nextClient, mac, defaultAssignee)];
      nextClient := nextClient + 1;
      Commit(ClientAdded(mac, defaultAssignee));
    }

    method RemoveClient(id: nat)
      requires Valid()
      modifies this
      ensures Valid() && history == old(history) + [ClientRemoved(id)]
    {
      clients := Filter(clients, OtherClient(id));
      cases := Filter(cases, OfOthers(id));
      Commit(ClientRemoved(id));
    }

    /** `sync_cases` */
    method SyncCases(root: Option<string>) returns (created: nat)
      requires Valid()
      modifies this
      ensures Valid() && history == old(history) + [Synced(root)]
      ensures |cases| == |old(cases)| + created
    {
      var existing := set c | c in cases :: c.clientId;
      var missing := CreateCases(clients, existing, root, nextCase);
      created := |missing|;
      cases := cases + missing;
      nextCase := nextCase + created;
      Commit(Synced(root));
    }

    /** `update_ping_status`; `rows` are the stored client records. */
    method UpdatePingStatus(rows: seq<ClientChanges.Row>, now: int)
      requires Valid()
      modifies this
      ensures Valid() && history == old(history) + [PingsUpdated(RecordQueries.NewestPings(rows), now)]
    {
      CaseTable.RunKeys(history);
      var pings := RecordQueries.NewestPings(rows);
      cases := WritePings(cases, pings, now);
      Commit(PingsUpdated(pings, now));
    }

    /** `auto_reopen_unreachable` */
    method AutoReopenUnreachable() returns (reopened: nat)
      requires Valid()
      modifies this
      ensures Valid() && history == old(history) + [UnreachableReopened]
      ensures reopened == |Filter(old(cases), NeedsReopening())|
    {
      reopened := |Filter(cases, NeedsReopening())|;
      cases := Map(cases, Reopened());
      Commit(UnreachableReopened);
    }

    /** `auto_resolve_reachable` */
    method AutoResolveReachable() returns (resolved: nat)
      requires Valid()
      modifies this
      ensures Valid() && history == old(history) + [ReachableResolved]
      ensures resolved == |Filter(old(cases), NeedsResolving())|
    {
      resolved := |Filter(cases, NeedsResolving())|;
      cases := Map(cases, Resolved());
      Commit(ReachableResolved);
    }

    /** `update_change_flags` */
    method UpdateChangeFlags(rows: seq<ClientChanges.Row>, now: int) returns (updated: nat)
      requires Valid()
      modifies this
      ensures Valid() && history == old(history) + [FlagsUpdated(rows, now)]
      ensures updated == |cases|
    {
      updated := |cases|;
      if cases != [] {
        CaseTable.RunKeys(history);
        cases := WriteFlags(cases, rows, now);
      }
      Commit(FlagsUpdated(rows, now));
    }

    /** The case part of `_run_client_collection`: the steps of one cycle, in order. */
    method RunCycle(root: Option<string>, rows: seq<ClientChanges.Row>, now: int, later: int)
      requires Valid()
      modifies this
      ensures Valid()
      ensures Abs() ==
        UpdateFlags(CaseLifecycle.Cycle(old(Abs()), root, RecordQueries.NewestPings(rows), now), rows, later)
      ensures CaseLifecycle.All(CaseLifecycle.Settled, cases) && CaseLifecycle.OneCaseEach(Abs())
    {
      RoundSettles(history, root, rows, now, later);
      var created := SyncCases(root);
      UpdatePingStatus(rows, now);
      var reopened := AutoReopenUnreachable();
      var resolved := AutoResolveReachable();
      var updated := UpdateChangeFlags(rows, later);
    }

    /** `update_case`; every error leaves the table as it was. */
    method UpdateCase(r: Request, accounts: set<string>) returns (error: Option<UpdateError>)
      requires Valid()
      modifies this
      ensures Valid() && history == old(history) + [Requested(r, accounts)]
      ensures error == Update(old(Abs()), r, accounts).1
    {
      FindMeaning(cases, r.caseId);
      var found := Find(cases, r.caseId);
      if found.None? {
        Commit(Requested(r, accounts));
        return Some(NotFound);
      }
      var c, edited := cases[found.value], cases[found.value];
      error := CheckPermission(c, r);
      if error.None? {
        edited, error := Edit(c, r, accounts);
      }
      if error.None? {
        cases := cases[found.value := edited];
      }
      Commit(Requested(r, accounts));
    }
  }

  method CheckPermission(c: Case, r: Request) returns (error: Option<UpdateError>)
    ensures error == Permitted(c, r)
  {
    var isAssignee := c.assignee == Some(r.user);
    if (r.summary.Some? || r.status.Some?) && !isAssignee {
      return Some(OnlyAssigneeMayEdit);
    }
    if r.assignee.Some? {
      if NonEmpty(c.assignee) {
        if !isAssignee { return Some(OnlyAssigneeMayTransfer); }
        if c.status == RESOLVED { return Some(ResolvedCannotBeTransferred); }
      } else if !IsManager(r.role) {
        return Some(OnlyManagersMayAssign);
      }
    }
    return None;
  }

  /** The changes a permitted request makes to its case, or what is wrong with them. */
  method Edit(c: Case, r: Request, accounts: set<string>) returns (edited: Case, error: Option<UpdateError>)
    requires Permitted(c, r).None?
    ensures match Edited(c, r, accounts)
      case Ok(c') => error.None? && edited == c'
      case Err(e) => error == Some(e)
  {
    edited := c;
    if r.summary.Some? {
      edited := edited.(summary := if r.summary.value == "" then None else Some(Strip(r.summary.value)));
    }
    if r.status.Some? {
      var status := ParseStatus(r.status.value);
      if status.None? { return edited, Some(UnknownStatus); }
      if status.value == RESOLVED && c.ping != Some(true) { return edited, Some(UnreachableCannotBeResolved); }
      edited := edited.(status := status.value);
    }
    if r.assignee.Some? {
      if r.assignee.value == "" {
        edited := edited.(assignee := None, status := UNASSIGNED);
      } else {
        if r.assignee.value !in accounts { return edited, Some(UnknownUser); }
        edited := edited.(assignee := r.assignee);
        if edited.status == UNASSIGNED {
          edited := edited.(status := ASSIGNED);
        }
      }
    }
    return edited, None;
  }

  lemma OneStatePerClient(cases: seq<Case>)
    requires forall i, j :: 0 <= i < j < |cases| ==> cases[i].clientId != cases[j].clientId
    ensures forall c, d :: c in cases && d in cases && c.clientId == d.clientId ==> c == d
  {
  }

  lemma NothingPinged(cases: seq<Case>, pings: map<nat, Option<bool>>, now: int)
    ensures Map(cases, Pinged(Restrict(pings, pings.Keys - pings.Keys), now)) == cases
  {
  }
}
