/**
 Writing only changed client records (`_save_changed_records`, `_cleanup_old_records` in
 app/services/client_collection_service.py).
 */
module ClientChanges {
  import opened Wrappers
  import opened Seqs
  import opened CandidateSelection
  import opened ClientAssembly
  import opened Text

  /** The fields that count as a client's state; its addresses do not. */
  datatype State = State(at: Location, ping: Option<bool>)

  function StateOf(r: ClientRecord): State {
    State(r.at, r.ping)
  }

  datatype Row = Row(record: ClientRecord, at: int)

  datatype LatestClient = LatestClient(mac: string, hash: string, collectedAt: int, lastCheckedAt: int)

  datatype Log = Log(latest: map<int, LatestClient>, rows: seq<Row>)

  datatype Event =
    | Saved(record: ClientRecord, at: int)   // one record of a collection
    | Cleaned(cutoff: int)                   // rows older than the cutoff deleted

  function SaveRecord(hash: State -> string, log: Log, r: ClientRecord, now: int): Log {
    var h := hash(StateOf(r));
    if r.clientId == 0 then log
    else if r.clientId in log.latest then
      var known := log.latest[r.clientId];
      if known.hash == h then log.(latest := log.latest[r.clientId := known.(lastCheckedAt := now)])
      else
        Log(log.latest[r.clientId := known.(hash := h, collectedAt := now, lastCheckedAt := now)],
            log.rows + [Row(r, now)])
    else Log(log.latest[r.clientId := LatestClient(Upper(r.mac), h, now, now)], log.rows + [Row(r, now)])
  }

  function Recent(cutoff: int): Row -> bool {
    (row: Row) => row.at >= cutoff
  }

  /** Deletes rows only; the pointers stay as they are. */
  function Clean(log: Log, cutoff: int): Log {
    log.(rows := Filter(log.rows, Recent(cutoff)))
  }

  function Apply(hash: State -> string, log: Log, e: Event): Log {
    match e
    case Saved(r, at) => SaveRecord(hash, log, r, at)
    case Cleaned(cutoff) => Clean(log, cutoff)
  }

  function Replay(hash: State -> string, history: seq<Event>): Log {
    if history == [] then Log(map[], []) else Apply(hash, Replay(hash, history[..|history| - 1]), Last(history))
  }

  // ---- Reference: every observed state ----

  function Observed(history: seq<Event>, client: int): seq<State> {
    if history == [] then []
    else
      var before := Observed(history[..|history| - 1], client);
      match Last(history)
      case Saved(r, _) => if r.clientId == client then before + [StateOf(r)] else before
      case Cleaned(_) => before
  }

  /** The first of each run of states with equal hashes. */
  function Dedup(hash: State -> string, states: seq<State>): seq<State> {
    if states == [] then []
    else
      var front, last := states[..|states| - 1], Last(states);
      Dedup(hash, front) + (if front != [] && hash(Last(front)) == hash(last) then [] else [last])
  }

  lemma DedupNext(hash: State -> string, states: seq<State>, s: State)
    ensures Dedup(hash, states + [s])
      == Dedup(hash, states) + if states != [] && hash(Last(states)) == hash(s) then [] else [s]
  {
    assert (states + [s])[..|states|] == states;
  }

  lemma {:induction false} DedupLast(hash: State -> string, states: seq<State>)
    requires states != []
    ensures Dedup(hash, states) != [] && hash(Last(Dedup(hash, states))) == hash(Last(states))
  {
    if |states| > 1 { DedupLast(hash, states[..|states| - 1]); }
  }

  function OfClient(client: int): Row -> bool {
    (row: Row) => row.record.clientId == client
  }

  function RowsOf(log: Log, client: int): seq<Row> {
    Filter(log.rows, OfClient(client))
  }

  function Written(log: Log, client: int): seq<State> {
    Map(RowsOf(log, client), (row: Row) => StateOf(row.record))
  }

  lemma WrittenNext(log: Log, log': Log, row: Row, client: int)
    requires log'.rows == log.rows + [row]
    ensures RowsOf(log', client) == RowsOf(log, client) + if row.record.clientId == client then [row] else []
    ensures Written(log', client)
      == Written(log, client) + if row.record.clientId == client then [StateOf(row.record)] else []
  {
    FilterAppend(log.rows, [row], OfClient(client));
    FilterOne(row, OfClient(client));
  }

  /** The pointer of a client carries the hash of its last observed state. */
  ghost predicate PointerMatches(hash: State -> string, log: Log, client: int, states: seq<State>) {
    && (client in log.latest <==> states != [])
    && (states != [] ==> log.latest[client].hash == hash(Last(states)))
  }

  lemma {:induction false} PointersMatch(hash: State -> string, history: seq<Event>, client: int)
    requires client != 0
    ensures PointerMatches(hash, Replay(hash, history), client, Observed(history, client))
  {
    if history != [] { PointersMatch(hash, history[..|history| - 1], client); }
  }

  ghost predicate NothingCleaned(history: seq<Event>) {
    forall e :: e in history ==> e.Saved?
  }

  lemma SaveWritesChanges(hash: State -> string, log: Log, r: ClientRecord, now: int, client: int, states: seq<State>)
    requires client != 0 && PointerMatches(hash, log, client, states) && Written(log, client) == Dedup(hash, states)
    ensures Written(SaveRecord(hash, log, r, now), client)
      == Dedup(hash, if r.clientId == client then states + [StateOf(r)] else states)
  {
    DedupNext(hash, states, StateOf(r));
    var log' := SaveRecord(hash, log, r, now);
    if log'.rows != log.rows {
      WrittenNext(log, log', Row(r, now), client);
    } else if r.clientId == client {
      assert |log.rows + [Row(r, now)]| == |log.rows| + 1;
    }
  }

  /**
   Over every run in which nothing is cleaned up, the records written for a client are its observed
   states with adjacent repetitions removed.
   */
  lemma {:induction false} WrittenAreChanges(hash: State -> string, history: seq<Event>, client: int)
    requires client != 0 && NothingCleaned(history)
    ensures Written(Replay(hash, history), client) == Dedup(hash, Observed(history, client))
  {
    if history != [] {
      var front := history[..|history| - 1];
      assert history == front + [Last(history)];
      WrittenAreChanges(hash, front, client);
      PointersMatch(hash, front, client);
      SaveWritesChanges(hash, Replay(hash, front), Last(history).record, Last(history).at, client,
        Observed(front, client));
    }
  }

  lemma {:induction false} UnlistedNeverWritten(hash: State -> string, history: seq<Event>)
    ensures Written(Replay(hash, history), 0) == [] && 0 !in Replay(hash, history).latest
  {
    if history != [] {
      var front := history[..|history| - 1];
      UnlistedNeverWritten(hash, front);
      var log, log' := Replay(hash, front), Replay(hash, history);
      match Last(history)
      case Saved(r, at) => if log'.rows != log.rows { WrittenNext(log, log', Row(r, at), 0); }
      case Cleaned(cutoff) => FilterCommute(log.rows, Recent(cutoff), OfClient(0));
    }
  }

  // ---- The newest record is the current state: exactly when hashes tell states apart ----

  ghost predicate Injective(hash: State -> string) {
    forall a, b :: hash(a) == hash(b) ==> a == b
  }

  ghost predicate NewestIsCurrent(hash: State -> string, history: seq<Event>, client: int) {
    var states, written := Observed(history, client), Written(Replay(hash, history), client);
    states != [] ==> written != [] && Last(written) == Last(states)
  }

  function RecordOf(s: State): ClientRecord {
    ClientRecord(1, "", None, s.at, s.ping)
  }

  lemma CollisionHidesChange(hash: State -> string, a: State, b: State)
    requires a != b && hash(a) == hash(b)
    ensures var history := [Saved(RecordOf(a), 0), Saved(RecordOf(b), 1)];
      NothingCleaned(history) && !NewestIsCurrent(hash, history, 1)
  {
    var one, two := [Saved(RecordOf(a), 0)], [Saved(RecordOf(a), 0), Saved(RecordOf(b), 1)];
    assert one[..0] == [] && two[..1] == one;
    assert Observed(one, 1) == [] + [StateOf(RecordOf(a))] == [a];
    assert Observed(two, 1) == [a] + [StateOf(RecordOf(b))] == [a, b];
    WrittenAreChanges(hash, two, 1);
    DedupNext(hash, [], a);
    DedupNext(hash, [a], b);
    assert [] + [a] == [a] && [a] + [b] == [a, b];
  }

  lemma CurrentIffInjective(hash: State -> string)
    ensures Injective(hash) <==>
      forall history, client :: client != 0 && NothingCleaned(history) ==> NewestIsCurrent(hash, history, client)
  {
    if Injective(hash) {
      forall history, client | client != 0 && NothingCleaned(history) ensures NewestIsCurrent(hash, history, client) {
        WrittenAreChanges(hash, history, client);
        if Observed(history, client) != [] { DedupLast(hash, Observed(history, client)); }
      }
    } else {
      var a, b :| hash(a) == hash(b) && a != b;
      CollisionHidesChange(hash, a, b);
    }
  }

  // ---- Clean-up ----

  /** The pointer of the client still has its record. */
  ghost predicate HasCurrent(hash: State -> string, log: Log, client: int) {
    && client in log.latest && RowsOf(log, client) != []
    && Last(RowsOf(log, client)).at == log.latest[client].collectedAt
    && hash(StateOf(Last(RowsOf(log, client)).record)) == log.latest[client].hash
  }

  lemma {:induction false} FilterLast<T>(s: seq<T>, p: T -> bool)
    requires s != []
    ensures p(Last(s)) ==> Filter(s, p) != [] && Last(Filter(s, p)) == Last(s)
  {
  }

  /** A clean-up leaves the current record of a client in place exactly when its last change is recent enough. */
  lemma CleanupKeepsCurrentIff(hash: State -> string, log: Log, cutoff: int, client: int)
    requires HasCurrent(hash, log, client)
    ensures HasCurrent(hash, Clean(log, cutoff), client) <==> log.latest[client].collectedAt >= cutoff
  {
    FilterCommute(log.rows, Recent(cutoff), OfClient(client));
    var own := RowsOf(log, client);
    FilterLast(own, Recent(cutoff));
    if HasCurrent(hash, Clean(log, cutoff), client) {
      FilterMember(own, Recent(cutoff), Last(RowsOf(Clean(log, cutoff), client)));
    }
  }

  /** The position of the save that last changed the client's state, or -1. */
  function LastChange(hash: State -> string, history: seq<Event>, client: int): int {
    if history == [] then -1
    else
      var front, e := history[..|history| - 1], Last(history);
      if e.Saved? && e.record.clientId == client
         && (Observed(front, client) == [] || hash(Last(Observed(front, client))) != hash(StateOf(e.record)))
      then |front| else LastChange(hash, front, client)
  }

  predicate IsSaveOf(e: Event, client: int) {
    e.Saved? && e.record.clientId == client
  }

  /** From that save on, all observed states of the client have its hash; before it there is none or another. */
  lemma {:induction false} LastChangeMeaning(hash: State -> string, history: seq<Event>, client: int)
    ensures -1 <= LastChange(hash, history, client) < |history|
    ensures LastChange(hash, history, client) == -1 <==> Observed(history, client) == []
    ensures var k := LastChange(hash, history, client);
      k >= 0 ==>
        && IsSaveOf(history[k], client)
        && hash(Last(Observed(history, client))) == hash(StateOf(history[k].record))
        && (forall j :: k < j < |history| && IsSaveOf(history[j], client) ==>
             hash(StateOf(history[j].record)) == hash(StateOf(history[k].record)))
        && (Observed(history[..k], client) == [] ||
            hash(Last(Observed(history[..k], client))) != hash(StateOf(history[k].record)))
  {
    if history != [] {
      var front := history[..|history| - 1];
      LastChangeMeaning(hash, front, client);
      var k := LastChange(hash, history, client);
      if 0 <= k < |front| { assert history[..k] == front[..k]; }
    }
  }

  /** No clean-up after the client's last change reached back to it. */
  ghost predicate Spared(hash: State -> string, history: seq<Event>, client: int) {
    var k := LastChange(hash, history, client);
    && 0 <= k < |history| && history[k].Saved?
    && forall j :: k < j < |history| && history[j].Cleaned? ==> history[j].cutoff <= history[k].at
  }

  /** The pointer carries the time of the last change; without its record, no record has that time. */
  ghost predicate PointerTimed(hash: State -> string, history: seq<Event>, client: int) {
    var log, k := Replay(hash, history), LastChange(hash, history, client);
    && (client in log.latest <==> k >= 0)
    && (client in log.latest ==>
         && k < |history| && history[k].Saved? && log.latest[client].collectedAt == history[k].at
         && (HasCurrent(hash, log, client) || forall row :: row in RowsOf(log, client) ==> row.at != history[k].at))
  }

  /** What one more event must keep. */
  ghost predicate Timed(hash: State -> string, history: seq<Event>, client: int) {
    && PointerTimed(hash, history, client)
    && (HasCurrent(hash, Replay(hash, history), client) <==> Spared(hash, history, client))
  }

  /** A save of the client that changes its state. */
  lemma ChangeTimed(hash: State -> string, front: seq<Event>, e: Event, client: int)
    requires client != 0 && IsSaveOf(e, client)
    requires Observed(front, client) == [] || hash(Last(Observed(front, client))) != hash(StateOf(e.record))
    ensures Timed(hash, front + [e], client)
  {
    var history := front + [e];
    assert history[..|front|] == front;
    PointersMatch(hash, front, client);
    WrittenNext(Replay(hash, front), Replay(hash, history), Row(e.record, e.at), client);
    assert LastChange(hash, history, client) == |front|;
  }

  /** A save of the client that does not, or of another client. */
  lemma NoChangeTimed(hash: State -> string, front: seq<Event>, e: Event, client: int)
    requires client != 0 && e.Saved? && Timed(hash, front, client)
    requires e.record.clientId == client ==>
      Observed(front, client) != [] && hash(Last(Observed(front, client))) == hash(StateOf(e.record))
    ensures Timed(hash, front + [e], client)
  {
    var history := front + [e];
    assert history[..|front|] == front;
    PointersMatch(hash, front, client);
    LastChangeMeaning(hash, front, client);
    var log, log' := Replay(hash, front), Replay(hash, history);
    if log'.rows != log.rows { WrittenNext(log, log', Row(e.record, e.at), client); }
    assert RowsOf(log', client) == RowsOf(log, client);
    assert LastChange(hash, history, client) == LastChange(hash, front, client);
  }

  lemma CleanTimed(hash: State -> string, front: seq<Event>, e: Event, client: int)
    requires client != 0 && e.Cleaned? && Timed(hash, front, client)
    ensures Timed(hash, front + [e], client)
  {
    var history := front + [e];
    assert history[..|front|] == front;
    LastChangeMeaning(hash, front, client);
    var log, log', k := Replay(hash, front), Replay(hash, history), LastChange(hash, front, client);
    assert LastChange(hash, history, client) == k;
    FilterCommute(log.rows, Recent(e.cutoff), OfClient(client));
    forall row ensures row in RowsOf(log', client) <==> row in RowsOf(log, client) && row.at >= e.cutoff {
      FilterMember(RowsOf(log, client), Recent(e.cutoff), row);
    }
    if HasCurrent(hash, log, client) { CleanupKeepsCurrentIff(hash, log, e.cutoff, client); }
    if RowsOf(log', client) != [] { assert Last(RowsOf(log', client)) in RowsOf(log', client); }
  }

  /**
   Over every history of collections and clean-ups, the current record of a client is there exactly
   if no clean-up after its last change had a later cutoff than that change.
   */
  lemma {:induction false} CurrentIffSpared(hash: State -> string, history: seq<Event>, client: int)
    requires client != 0
    ensures Timed(hash, history, client)
  {
    if history != [] {
      var front, e := history[..|history| - 1], Last(history);
      CurrentIffSpared(hash, front, client);
      assert history == front + [e];
      if e.Cleaned? {
        CleanTimed(hash, front, e, client);
      } else if IsSaveOf(e, client)
                && (Observed(front, client) == [] || hash(Last(Observed(front, client))) != hash(StateOf(e.record))) {
        ChangeTimed(hash, front, e, client);
      } else {
        NoChangeTimed(hash, front, e, client);
      }
    }
  }

  // ---- After the record is gone ----

  function ReplayFrom(hash: State -> string, log: Log, events: seq<Event>): Log {
    if events == [] then log else Apply(hash, ReplayFrom(hash, log, events[..|events| - 1]), Last(events))
  }

  lemma {:induction false} ReplayAppend(hash: State -> string, before: seq<Event>, after: seq<Event>)
    ensures Replay(hash, before + after) == ReplayFrom(hash, Replay(hash, before), after)
  {
    if after == [] {
      assert before + after == before;
    } else {
      assert (before + after)[..|before + after| - 1] == before + after[..|after| - 1];
      ReplayAppend(hash, before, after[..|after| - 1]);
    }
  }

  /** The client is known and none of its records is left. */
  ghost predicate Lost(log: Log, client: int) {
    client != 0 && client in log.latest && RowsOf(log, client) == []
  }

  /** Every observation of the client has the hash the pointer remembers. */
  ghost predicate Unchanged(hash: State -> string, log: Log, client: int, events: seq<Event>)
    requires client in log.latest
  {
    forall e :: e in events && IsSaveOf(e, client) ==> hash(StateOf(e.record)) == log.latest[client].hash
  }

  lemma LostStep(hash: State -> string, log: Log, e: Event, client: int)
    requires Lost(log, client)
    ensures var log' := Apply(hash, log, e);
      Lost(log', client) <==> !(IsSaveOf(e, client) && hash(StateOf(e.record)) != log.latest[client].hash)
    ensures Lost(Apply(hash, log, e), client) ==> Apply(hash, log, e).latest[client].hash == log.latest[client].hash
  {
    var log' := Apply(hash, log, e);
    match e
    case Saved(r, at) =>
      if log'.rows != log.rows {
        WrittenNext(log, log', Row(r, at), client);
      } else if r.clientId == client {
        assert |log.rows + [Row(r, at)]| == |log.rows| + 1;
      }
    case Cleaned(cutoff) => FilterCommute(log.rows, Recent(cutoff), OfClient(client));
  }

  lemma {:induction false} LostWhileUnchanged(hash: State -> string, log: Log, client: int, later: seq<Event>)
    requires Lost(log, client) && Unchanged(hash, log, client, later)
    ensures var log' := ReplayFrom(hash, log, later);
      Lost(log', client) && log'.latest[client].hash == log.latest[client].hash
  {
    if later != [] {
      var front, e := later[..|later| - 1], Last(later);
      assert later == front + [e];
      LostWhileUnchanged(hash, log, client, front);
      LostStep(hash, ReplayFrom(hash, log, front), e, client);
    }
  }

  ghost predicate NothingWritten(hash: State -> string, log: Log, client: int, later: seq<Event>) {
    forall n :: 0 <= n <= |later| ==> Written(ReplayFrom(hash, log, later[..n]), client) == []
  }

  /**
   Once a client's records are gone, nothing is written of it, however long it is collected, exactly
   until its state changes.
   */
  lemma {:induction false} LostUntilChanged(hash: State -> string, log: Log, client: int, later: seq<Event>)
    requires Lost(log, client)
    ensures NothingWritten(hash, log, client, later) <==> Unchanged(hash, log, client, later)
  {
    if Unchanged(hash, log, client, later) {
      forall n | 0 <= n <= |later| ensures Written(ReplayFrom(hash, log, later[..n]), client) == [] {
        LostWhileUnchanged(hash, log, client, later[..n]);
      }
    } else {
      var k := FirstChange(hash, log, client, later);
      LostWhileUnchanged(hash, log, client, later[..k]);
      LostStep(hash, ReplayFrom(hash, log, later[..k]), later[k], client);
      assert later[..k + 1][..k] == later[..k];
      var log' := ReplayFrom(hash, log, later[..k + 1]);
      assert log' == Apply(hash, ReplayFrom(hash, log, later[..k]), later[k]);
      assert client in log'.latest;
      assert Written(log', client) != [];
    }
  }

  lemma {:induction false} FirstChange(hash: State -> string, log: Log, client: int, later: seq<Event>) returns (k: nat)
    requires client in log.latest && !Unchanged(hash, log, client, later)
    ensures k < |later| && IsSaveOf(later[k], client) && hash(StateOf(later[k].record)) != log.latest[client].hash
    ensures Unchanged(hash, log, client, later[..k])
  {
    var front := later[..|later| - 1];
    assert later == front + [Last(later)];
    if Unchanged(hash, log, client, front) {
      k := |front|;
    } else {
      k := FirstChange(hash, log, client, front);
      assert later[..k] == front[..k];
    }
  }

  lemma CleanupLoses(hash: State -> string, history: seq<Event>, client: int, cutoff: int)
    requires client != 0 && Observed(history, client) != []
    requires forall row :: row in RowsOf(Replay(hash, history), client) ==> row.at < cutoff
    ensures var log := Replay(hash, history + [Cleaned(cutoff)]);
      Lost(log, client) && log.latest[client].hash == hash(Last(Observed(history, client)))
  {
    assert (history + [Cleaned(cutoff)])[..|history|] == history;
    PointersMatch(hash, history, client);
    var log := Replay(hash, history);
    FilterCommute(log.rows, Recent(cutoff), OfClient(client));
    FilterNone(RowsOf(log, client), Recent(cutoff));
  }

  /**
   From any history on: when a clean-up has removed all records of a client, none is written again by
   any number of later collections and clean-ups as long as the client's state stays what it was.
   */
  lemma UnchangedClientIsLost(hash: State -> string, history: seq<Event>, client: int, cutoff: int, later: seq<Event>)
    requires client != 0 && Observed(history, client) != []
    requires forall row :: row in RowsOf(Replay(hash, history), client) ==> row.at < cutoff
    requires forall e :: e in later && IsSaveOf(e, client) ==> StateOf(e.record) == Last(Observed(history, client))
    ensures Written(Replay(hash, history + [Cleaned(cutoff)] + later), client) == []
  {
    CleanupLoses(hash, history, client, cutoff);
    LostWhileUnchanged(hash, Replay(hash, history + [Cleaned(cutoff)]), client, later);
    ReplayAppend(hash, history + [Cleaned(cutoff)], later);
  }

  // ---- In place ----

  function Stamped(records: seq<ClientRecord>, now: int): seq<Event> {
    Map(records, (r: ClientRecord) => Saved(r, now))
  }

  class ClientLog {
    const hash: State -> string
    var latest: map<int, LatestClient>
    var rows: seq<Row>
    ghost var history: seq<Event>

    ghost function Abs(): Log
      reads this
    {
      Log(latest, rows)
    }

    ghost predicate Valid()
      reads this
    {
      Abs() == Replay(hash, history)
    }

    constructor (hash: State -> string)
      ensures this.hash == hash && history == [] && Valid()
    {
      this.hash, latest, rows, history := hash, map[], [], [];
    }

    /** Records a change that has already been made. */
    ghost method Commit(e: Event)
      requires Abs() == Apply(hash, Replay(hash, history), e)
      modifies this`history
      ensures Valid() && history == old(history) + [e]
    {
      assert (history + [e])[..|history|] == history;
      history := history + [e];
    }

    /** One record of a collection. */
    method SaveIfChanged(r: ClientRecord, now: int) returns (written: bool)
      requires Valid()
      modifies this
      ensures Valid() && history == old(history) + [Saved(r, now)]
      ensures rows == old(rows) + if written then [Row(r, now)] else []
      ensures written <==>
        r.clientId != 0 && (r.clientId in old(latest) ==> old(latest)[r.clientId].hash != hash(StateOf(r)))
      ensures r.clientId != 0 ==>
        && r.clientId in latest && latest[r.clientId].hash == hash(StateOf(r))
            && latest[r.clientId].lastCheckedAt == now
        && latest[r.clientId].collectedAt == if written then now else old(latest)[r.clientId].collectedAt
    {
      written := false;
      if r.clientId != 0 {
        var newHash := hash(StateOf(r));
        if r.clientId in latest && latest[r.clientId].hash == newHash {
          latest := latest[r.clientId := latest[r.clientId].(lastCheckedAt := now)];
        } else {
          rows := rows + [Row(r, now)];
          written := true;
          if r.clientId in latest {
            latest := latest[r.clientId :=
              latest[r.clientId].(hash := newHash, collectedAt := now, lastCheckedAt := now)];
          } else {
            latest := latest[r.clientId := LatestClient(Upper(r.mac), newHash, now, now)];
          }
        }
      }
      Commit(Saved(r, now));
    }

    /** `_save_changed_records` */
    method SaveChangedRecords(records: seq<ClientRecord>, now: int) returns (count: nat)
      requires Valid()
      modifies this
      ensures Valid() && history == old(history) + Stamped(records, now)
      ensures count == |rows| - |old(rows)|
    {
      count := 0;
      for i := 0 to |records|
        invariant Valid() && history == old(history) + Stamped(records[..i], now)
        invariant count == |rows| - |old(rows)|
      {
        StampNext(old(history), records, i, now);
        var written := SaveIfChanged(records[i], now);
        count := count + if written then 1 else 0;
      }
      assert records[..|records|] == records;
    }

    /** `_cleanup_old_records` */
    method CleanupOldRecords(cutoff: int) returns (deleted: int)
      requires Valid()
      modifies this
      ensures Valid() && history == old(history) + [Cleaned(cutoff)]
      ensures deleted == |old(rows)| - |rows| && deleted >= 0
    {
      var before := |rows|;
      FilterShorter(rows, Recent(cutoff));
      rows := Filter(rows, Recent(cutoff));
      deleted := before - |rows|;
      Commit(Cleaned(cutoff));
    }
  }

  lemma StampNext(before: seq<Event>, records: seq<ClientRecord>, i: nat, now: int)
    requires i < |records|
    ensures before + Stamped(records[..i + 1], now) == before + Stamped(records[..i], now) + [Saved(records[i], now)]
  {
  }
}
