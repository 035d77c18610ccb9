/**
 From the client log to the cases: what the ping updates of the case service see of the clients'
 states, when only changed records are written and old ones are cleaned up.
 */
module PingFeed {
  import opened Wrappers
  import opened Seqs
  import opened CaseTable
  import opened RecordQueries
  import CaseLifecycle
  import CA = ClientAssembly
  import L = ClientChanges

  // ---- Which clients have a ping result, and which one ----

  /** The clock of the collections does not go back. */
  ghost predicate Chronological(history: seq<L.Event>) {
    forall i, j :: 0 <= i < j < |history| && history[i].Saved? && history[j].Saved? ==> history[i].at <= history[j].at
  }

  ghost predicate NoneAfter(rows: seq<L.Row>, at: int) {
    forall row :: row in rows ==> row.at <= at
  }

  /** The current record is a newest one; if it is gone, so are all others of the client. */
  ghost predicate CurrentOrNone(hash: L.State -> string, log: L.Log, client: int) {
    if client in log.latest && L.HasCurrent(hash, log, client)
    then NoneAfter(L.RowsOf(log, client), log.latest[client].collectedAt)
    else L.RowsOf(log, client) == []
  }

  lemma SaveCurrentOrNone(hash: L.State -> string, log: L.Log, e: L.Event, client: int)
    requires client != 0 && e.Saved? && CurrentOrNone(hash, log, client)
    requires client in log.latest ==> log.latest[client].collectedAt <= e.at
    ensures CurrentOrNone(hash, L.Apply(hash, log, e), client)
  {
    var log' := L.Apply(hash, log, e);
    if log'.rows != log.rows {
      L.WrittenNext(log, log', L.Row(e.record, e.at), client);
    } else if e.record.clientId == client {
      assert |log.rows + [L.Row(e.record, e.at)]| == |log.rows| + 1;
    }
  }

  lemma CleanCurrentOrNone(hash: L.State -> string, log: L.Log, cutoff: int, client: int)
    requires CurrentOrNone(hash, log, client)
    ensures CurrentOrNone(hash, L.Clean(log, cutoff), client)
  {
    var own := L.RowsOf(log, client);
    FilterCommute(log.rows, L.Recent(cutoff), L.OfClient(client));
    if own != [] {
      L.CleanupKeepsCurrentIff(hash, log, cutoff, client);
      if log.latest[client].collectedAt >= cutoff {
        forall row | row in Filter(own, L.Recent(cutoff)) ensures row.at <= log.latest[client].collectedAt {
          FilterMember(own, L.Recent(cutoff), row);
        }
      } else {
        FilterNone(own, L.Recent(cutoff));
      }
    }
  }

  lemma {:induction false} CurrentOrNoneAlways(hash: L.State -> string, history: seq<L.Event>, client: int)
    requires client != 0 && Chronological(history)
    ensures CurrentOrNone(hash, L.Replay(hash, history), client)
  {
    if history != [] {
      var front, e := Front(history), Last(history);
      CurrentOrNoneAlways(hash, front, client);
      if e.Saved? {
        L.CurrentIffSpared(hash, front, client);
        SaveCurrentOrNone(hash, L.Replay(hash, front), e, client);
      } else {
        CleanCurrentOrNone(hash, L.Replay(hash, front), e.cutoff, client);
      }
    }
  }

  /** The current record is the one that recorded the client's last change. */
  ghost predicate CurrentIsChange(hash: L.State -> string, history: seq<L.Event>, client: int) {
    var log, k := L.Replay(hash, history), L.LastChange(hash, history, client);
    L.HasCurrent(hash, log, client) ==>
      0 <= k < |history| && history[k].Saved? && Last(L.RowsOf(log, client)).record == history[k].record
  }

  lemma SaveCurrentIsChange(hash: L.State -> string, front: seq<L.Event>, e: L.Event, client: int)
    requires client != 0 && e.Saved? && CurrentIsChange(hash, front, client)
    ensures CurrentIsChange(hash, front + [e], client)
  {
    var history := front + [e];
    assert history[..|front|] == front;
    var log, log' := L.Replay(hash, front), L.Replay(hash, history);
    L.PointersMatch(hash, front, client);
    if log'.rows != log.rows {
      L.WrittenNext(log, log', L.Row(e.record, e.at), client);
    } else if L.IsSaveOf(e, client) {
      assert |log.rows + [L.Row(e.record, e.at)]| == |log.rows| + 1;
    }
  }

  lemma CleanCurrentIsChange(hash: L.State -> string, front: seq<L.Event>, e: L.Event, client: int)
    requires client != 0 && e.Cleaned? && CurrentIsChange(hash, front, client)
    requires CurrentOrNone(hash, L.Replay(hash, front), client)
    ensures CurrentIsChange(hash, front + [e], client)
  {
    var history := front + [e];
    assert history[..|front|] == front;
    var log := L.Replay(hash, front);
    var own := L.RowsOf(log, client);
    FilterCommute(log.rows, L.Recent(e.cutoff), L.OfClient(client));
    assert L.LastChange(hash, history, client) == L.LastChange(hash, front, client);
    if own != [] && L.HasCurrent(hash, L.Replay(hash, history), client) {
      L.CleanupKeepsCurrentIff(hash, log, e.cutoff, client);
      L.FilterLast(own, L.Recent(e.cutoff));
    }
  }

  lemma {:induction false} CurrentIsChangeAlways(hash: L.State -> string, history: seq<L.Event>, client: int)
    requires client != 0 && Chronological(history)
    ensures CurrentIsChange(hash, history, client)
  {
    if history != [] {
      var front, e := Front(history), Last(history);
      assert history == front + [e];
      CurrentIsChangeAlways(hash, front, client);
      if e.Saved? {
        SaveCurrentIsChange(hash, front, e, client);
      } else {
        CurrentOrNoneAlways(hash, front, client);
        CleanCurrentIsChange(hash, front, e, client);
      }
    }
  }

  lemma {:induction false} NewestIsLast(rows: seq<L.Row>, client: int)
    requires var own := Filter(rows, L.OfClient(client)); own != [] && NoneAfter(own, Last(own).at)
    ensures NewestOf(rows, client) == Some(Last(Filter(rows, L.OfClient(client))))
  {
    var own, front, row := Filter(rows, L.OfClient(client)), Front(rows), Last(rows);
    NewestOfMeaning(front, client);
    if row.record.clientId != client {
      NewestIsLast(front, client);
    } else if NewestOf(front, client).Some? {
      FilterMember(rows, L.OfClient(client), NewestOf(front, client).value);
    }
  }

  /** Every record of a client with a ping result is listed under its id. */
  lemma PingOfNewest(rows: seq<L.Row>, client: nat)
    requires client > 0
    ensures client in NewestPings(rows) <==> NewestOf(rows, client).Some?
    ensures client in NewestPings(rows) ==> NewestPings(rows)[client] == NewestOf(rows, client).value.record.ping
  {
    NewestOfMeaning(rows, client);
    if NewestOf(rows, client).Some? { assert client in Recorded(rows); }
  }

  /** The ping result at the client's last change, as far as the hash shows changes. */
  function PingOfChange(hash: L.State -> string, history: seq<L.Event>, client: int): Option<bool>
    requires L.Spared(hash, history, client)
  {
    history[L.LastChange(hash, history, client)].record.ping
  }

  /**
   Over every history of collections and clean-ups, whatever the hash does: the case service learns a
   client's ping result exactly if no clean-up after the client's last change reached back to that
   change, and then it is the result recorded with the change.
   */
  lemma PingKnownIffSpared(hash: L.State -> string, history: seq<L.Event>, client: nat)
    requires client > 0 && Chronological(history)
    ensures client in NewestPings(L.Replay(hash, history).rows) <==> L.Spared(hash, history, client)
    ensures L.Spared(hash, history, client) ==>
      NewestPings(L.Replay(hash, history).rows)[client] == PingOfChange(hash, history, client)
  {
    var log := L.Replay(hash, history);
    CurrentOrNoneAlways(hash, history, client);
    CurrentIsChangeAlways(hash, history, client);
    L.CurrentIffSpared(hash, history, client);
    PingOfNewest(log.rows, client);
    if L.Spared(hash, history, client) {
      NewestIsLast(log.rows, client);
    } else {
      NewestOfMeaning(log.rows, client);
      if NewestOf(log.rows, client).Some? {
        FilterMember(log.rows, L.OfClient(client), NewestOf(log.rows, client).value);
      }
    }
  }

  /** States with equal hashes have the same ping result. */
  ghost predicate PingSound(hash: L.State -> string) {
    forall a, b :: hash(a) == hash(b) ==> a.ping == b.ping
  }

  /** A ping result that the case service has of the client is the last one observed. */
  ghost predicate KnownIsObserved(hash: L.State -> string, history: seq<L.Event>, client: nat) {
    var pings, states := NewestPings(L.Replay(hash, history).rows), L.Observed(history, client);
    client in pings ==> states != [] && pings[client] == Last(states).ping
  }

  lemma SoundPings(hash: L.State -> string, history: seq<L.Event>, client: nat)
    requires PingSound(hash) && client > 0 && Chronological(history)
    ensures KnownIsObserved(hash, history, client)
  {
    PingKnownIffSpared(hash, history, client);
    L.LastChangeMeaning(hash, history, client);
  }

  lemma UnsoundPings(hash: L.State -> string, a: L.State, b: L.State)
    requires hash(a) == hash(b) && a.ping != b.ping
    ensures var history := [L.Saved(L.RecordOf(a), 0), L.Saved(L.RecordOf(b), 1)];
      Chronological(history) && !KnownIsObserved(hash, history, 1)
  {
    var one, two := [L.Saved(L.RecordOf(a), 0)], [L.Saved(L.RecordOf(a), 0), L.Saved(L.RecordOf(b), 1)];
    assert one[..0] == [] && two[..1] == one;
    assert L.Observed(one, 1) == [] + [L.StateOf(L.RecordOf(a))] == [a];
    assert L.Observed(two, 1) == [a] + [L.StateOf(L.RecordOf(b))] == [a, b];
    assert L.LastChange(hash, one, 1) == 0 && L.LastChange(hash, two, 1) == 0;
    PingKnownIffSpared(hash, two, 1);
  }

  /** Over all histories, every known ping result is the last one observed, exactly if the hash shows ping results. */
  lemma PingObservedIffSound(hash: L.State -> string)
    ensures PingSound(hash) <==>
      forall history, client: nat :: client > 0 && Chronological(history) ==> KnownIsObserved(hash, history, client)
  {
    if PingSound(hash) {
      forall history, client: nat | client > 0 && Chronological(history)
        ensures KnownIsObserved(hash, history, client)
      {
        SoundPings(hash, history, client);
      }
    } else {
      var a, b :| hash(a) == hash(b) && a.ping != b.ping;
      UnsoundPings(hash, a, b);
    }
  }

  /**
   When a case has its client's last observed ping result after a ping update, whatever the hash does:
   if its record was spared by the clean-ups, exactly if that record has the result; if not, exactly if
   the case had it before.  With a hash that shows ping results a spared record always has it.
   */
  lemma PingCurrentIff(hash: L.State -> string, history: seq<L.Event>, c: Case, now: int)
    requires c.clientId > 0 && Chronological(history) && L.Observed(history, c.clientId) != []
    ensures var observed := Last(L.Observed(history, c.clientId)).ping;
      Pinged(NewestPings(L.Replay(hash, history).rows), now)(c).ping == observed <==>
        if L.Spared(hash, history, c.clientId) then PingOfChange(hash, history, c.clientId) == observed
        else c.ping == observed
    ensures PingSound(hash) && L.Spared(hash, history, c.clientId) ==>
      PingOfChange(hash, history, c.clientId) == Last(L.Observed(history, c.clientId)).ping
  {
    PingKnownIffSpared(hash, history, c.clientId);
    if PingSound(hash) { SoundPings(hash, history, c.clientId); }
  }

    /** Cleaned up before the first ping update: the case does not learn that the client answered. */
  lemma PingMissed(hash: L.State -> string, record: CA.ClientRecord, c: Case, now: int) returns (history: seq<L.Event>)
    requires record.clientId == c.clientId > 0 && record.ping == Some(true) && c.ping.None?
    ensures Chronological(history) && L.Observed(history, c.clientId) == [L.StateOf(record)]
    ensures Pinged(NewestPings(L.Replay(hash, history).rows), now)(c).ping.None?
  {
    var saved := [L.Saved(record, 0)];
    history := saved + [L.Cleaned(1)];
    assert saved[..0] == [] && history[..1] == saved;
    assert L.Observed(saved, c.clientId) == [] + [L.StateOf(record)];
    assert L.Replay(hash, saved).rows == [] + [L.Row(record, 0)];
    FilterOne(L.Row(record, 0), L.Recent(1));
    FilterOne(L.Row(record, 0), L.OfClient(c.clientId));
    L.CleanupLoses(hash, saved, c.clientId, 1);
    LostUnseen(L.Replay(hash, history), c.clientId);
  }

  // ---- Log and cases together ----

  datatype System = System(log: L.Log, db: DB)

  datatype Tick =
    | Logged(event: L.Event)     // of the client log
    | Done(action: Action)       // of the cases, other than a ping update
    | PingsRead(now: int)        // a ping update from the log as it is

  function Step(hash: L.State -> string, s: System, t: Tick): System {
    match t
    case Logged(e) => s.(log := L.Apply(hash, s.log, e))
    case Done(a) => s.(db := Apply(s.db, a))
    case PingsRead(now) => s.(db := Apply(s.db, PingsUpdated(NewestPings(s.log.rows), now)))
  }

  function Steps(hash: L.State -> string, s: System, ticks: seq<Tick>): System {
    if ticks == [] then s else Step(hash, Steps(hash, s, Front(ticks)), Last(ticks))
  }

  /** The tick does not show a new state of the client, nor take it off the list. */
  predicate Quiet(hash: L.State -> string, known: string, client: nat, t: Tick) {
    match t
    case Logged(e) => L.IsSaveOf(e, client) ==> hash(L.StateOf(e.record)) == known
    case Done(a) => a != ClientRemoved(client) && !a.PingsUpdated?
    case PingsRead(_) => true
  }

  predicate SamePing(c: Case, c': Case) {
    c'.id == c.id && c'.clientId == c.clientId && c'.ping == c.ping && c'.since == c.since
  }

  lemma ActionKeepsPing(db: DB, a: Action, c: Case) returns (c': Case)
    requires Keys(db) && c in db.cases && a != ClientRemoved(c.clientId)
    requires a.PingsUpdated? ==> c.clientId !in a.pings
    ensures c' in Apply(db, a).cases && SamePing(c, c')
  {
    var i :| 0 <= i < |db.cases| && db.cases[i] == c;
    c' := c;
    match a
    case ClientAdded(_, _) =>
    case ClientRemoved(id) => FilterMember(db.cases, OfOthers(id), c);
    case Synced(root) => assert Sync(db, root).cases[i] == c;
    case PingsUpdated(pings, now) => c' := Apply(db, a).cases[i];
    case UnreachableReopened => c' := Apply(db, a).cases[i];
    case ReachableResolved => c' := Apply(db, a).cases[i];
    case FlagsUpdated(rows, now) => c' := Apply(db, a).cases[i];
    case Requested(request, accounts) =>
      UpdateKeys(db, request, accounts);
      c' := Apply(db, a).cases[i];
      FindMeaning(db.cases, request.caseId);
      if Update(db, request, accounts).1.None? {
        CaseLifecycle.EditKeeps(db.cases[Find(db.cases, request.caseId).value], request, accounts);
      }
  }

  lemma {:induction false} StepsKeepKeys(hash: L.State -> string, s: System, ticks: seq<Tick>)
    requires Keys(s.db)
    ensures Keys(Steps(hash, s, ticks).db)
  {
    if ticks != [] {
      StepsKeepKeys(hash, s, Front(ticks));
      var before := Steps(hash, s, Front(ticks));
      match Last(ticks)
      case Logged(_) =>
      case Done(a) => ApplyKeys(before.db, a);
      case PingsRead(now) => ApplyKeys(before.db, PingsUpdated(NewestPings(before.log.rows), now));
    }
  }

  /**
   Once a client's records have been cleaned up, its case keeps the ping result and the since-time it
   has, through any interleaving of collections, ping updates, other scheduler steps and user requests,
   for as long as the client's state does not change and it stays on the list.
   */
  lemma {:induction false} PingFrozen(hash: L.State -> string, s: System, ticks: seq<Tick>, c: Case) returns (c': Case)
    requires Keys(s.db) && c in s.db.cases && L.Lost(s.log, c.clientId)
    requires forall t :: t in ticks ==> Quiet(hash, s.log.latest[c.clientId].hash, c.clientId, t)
    ensures c' in Steps(hash, s, ticks).db.cases && SamePing(c, c')
    ensures var log' := Steps(hash, s, ticks).log;
      L.Lost(log', c.clientId) && log'.latest[c.clientId].hash == s.log.latest[c.clientId].hash
  {
    if ticks == [] {
      c' := c;
    } else {
      var front, t := Front(ticks), Last(ticks);
      assert ticks == front + [t] && t in ticks;
      c' := PingFrozen(hash, s, front, c);
      StepsKeepKeys(hash, s, front);
      var before := Steps(hash, s, front);
      match t {
        case Logged(e) => L.LostStep(hash, before.log, e, c.clientId);
        case Done(a) => c' := ActionKeepsPing(before.db, a, c');
        case PingsRead(now) =>
          LostUnseen(before.log, c.clientId);
          c' := ActionKeepsPing(before.db, PingsUpdated(NewestPings(before.log.rows), now), c');
      }
    }
  }

  lemma LostUnseen(log: L.Log, client: nat)
    requires L.Lost(log, client)
    ensures client !in NewestPings(log.rows)
  {
    PingOfNewest(log.rows, client);
    NewestOfMeaning(log.rows, client);
    if NewestOf(log.rows, client).Some? {
      FilterMember(log.rows, L.OfClient(client), NewestOf(log.rows, client).value);
    }
  }

  /** The change flags of such a client all go down, whatever it changed before. */
  lemma LostUnflagged(log: L.Log, client: nat, a: Attribute, now: int)
    requires L.Lost(log, client)
    ensures a in FlagsOf(HistoryOf(log.rows, client), now) && !FlagsOf(HistoryOf(log.rows, client), now)[a]
  {
    HistoryMeaning(log.rows, client);
    assert |HistoryOf(log.rows, client)| == |multiset(HistoryOf(log.rows, client))| == 0;
    AllTracked(a);
  }
}
