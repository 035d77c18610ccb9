/**
 The store as the application updates it: `TypedRecordRepository` (app/repositories/typed_records.py),
 `_save_device_results` with its error rows (app/snmp/collection_coordinator.py) and
 `RetentionService` (app/services/retention.py), on tables changed in place.

 The object remembers the history of committed changes; its tables are always the replay of it, so
 every result about histories is a result about this object.
 */
module CollectionStore {
  import opened Wrappers
  import opened Seqs
  import opened TypedStore

  /** What one collector of one device reports: its items, or a failure. */
  datatype Outcome<Item> = Collected(items: seq<Item>) | Failed(status: string, message: Option<string>)

  datatype CollectorOutcome<Item> = CollectorOutcome(apiName: string, outcome: Outcome<Item>)

  function EventOf<Item>(maintenance: string, host: string, c: CollectorOutcome<Item>, now: int): Event<Item> {
    var key := Key(maintenance, c.apiName, host);
    match c.outcome
    case Collected(items) => Observed(key, items, now)
    case Failed(status, message) => Failure(key, if NonEmpty(message) then message.value else status)
  }

  function EventsOf<Item>(maintenance: string, host: string, outcomes: seq<CollectorOutcome<Item>>, now: int):
    seq<Event<Item>>
  {
    Map(outcomes, (c: CollectorOutcome<Item>) => EventOf(maintenance, host, c, now))
  }

  lemma EventsOfNext<Item>(maintenance: string, host: string, outcomes: seq<CollectorOutcome<Item>>, now: int,
                           i: nat, before: seq<Event<Item>>)
    requires i < |outcomes|
    ensures before + EventsOf(maintenance, host, outcomes[..i + 1], now)
      == before + EventsOf(maintenance, host, outcomes[..i], now) + [EventOf(maintenance, host, outcomes[i], now)]
  {
  }

  // ---- What the tables say after the results of one device have been saved ----

  function Get<V>(m: map<Key, V>, key: Key): Option<V> {
    if key in m then Some(m[key]) else None
  }

  function LastOutcome<Item>(outcomes: seq<CollectorOutcome<Item>>, name: string): Option<Outcome<Item>> {
    if outcomes == [] then None
    else if Last(outcomes).apiName == name then Some(Last(outcomes).outcome)
    else LastOutcome(Front(outcomes), name)
  }

  /** The items of the last success of a collector. */
  function LastItems<Item>(outcomes: seq<CollectorOutcome<Item>>, name: string): Option<seq<Item>> {
    if outcomes == [] then None
    else if Last(outcomes).apiName == name && Last(outcomes).outcome.Collected? then Some(Last(outcomes).outcome.items)
    else LastItems(Front(outcomes), name)
  }

  predicate OfDevice(key: Key, maintenance: string, host: string) {
    key.maintenance == maintenance && key.host == host
  }

  /** The error row of a key: that of its last outcome if it failed, none if it succeeded, the old one without any. */
  ghost predicate ErrorTold<Item>(maintenance: string, host: string, outcomes: seq<CollectorOutcome<Item>>,
                                  before: map<Key, string>, errors: map<Key, string>, key: Key) {
    if !OfDevice(key, maintenance, host) then Get(errors, key) == Get(before, key)
    else match LastOutcome(outcomes, key.ctype)
      case None => Get(errors, key) == Get(before, key)
      case Some(Collected(_)) => key !in errors
      case Some(Failed(status, None)) => Get(errors, key) == Some(status)
      case Some(Failed(status, Some(message))) => Get(errors, key) == Some(if message == "" then status else message)
  }

  /** The pointer of a key: that of the items collected last if there are any, and otherwise the old one. */
  ghost predicate DataTold<Item>(ops: Ops<Item>, maintenance: string, host: string,
                                 outcomes: seq<CollectorOutcome<Item>>, before: map<Key, Latest>,
                                 latest: map<Key, Latest>, key: Key) {
    if OfDevice(key, maintenance, host) && LastItems(outcomes, key.ctype).Some?
    then key in latest && latest[key].dataHash == Hash(ops, LastItems(outcomes, key.ctype).value)
    else Get(latest, key) == Get(before, key)
  }

  ghost predicate AllFailed<Item>(outcomes: seq<CollectorOutcome<Item>>) {
    forall c :: c in outcomes ==> c.outcome.Failed?
  }

  lemma OutcomesNext<Item>(outcomes: seq<CollectorOutcome<Item>>, i: nat, name: string)
    requires i < |outcomes|
    ensures LastOutcome(outcomes[..i + 1], name)
      == if outcomes[i].apiName == name then Some(outcomes[i].outcome) else LastOutcome(outcomes[..i], name)
    ensures LastItems(outcomes[..i + 1], name)
      == if outcomes[i].apiName == name && outcomes[i].outcome.Collected? then Some(outcomes[i].outcome.items)
         else LastItems(outcomes[..i], name)
    ensures AllFailed(outcomes[..i + 1]) <==> AllFailed(outcomes[..i]) && outcomes[i].outcome.Failed?
  {
    TakeNext(outcomes, i);
    assert Front(outcomes[..i + 1]) == outcomes[..i];
  }

  /** What one outcome does to the tables: a success replaces the error row by data, a failure only writes that row. */
  ghost predicate Tabled<Item>(ops: Ops<Item>, key: Key, outcome: Outcome<Item>, now: int, db: DB<Item>,
                               db': DB<Item>) {
    match outcome
    case Collected(items) => db' == Save(ops, db, key, items, now).(errors := db.errors - {key})
    case Failed(status, message) =>
      db' == db.(errors := db.errors[key := if message.None? || message.value == "" then status else message.value])
  }

  /** What all outcomes of a device have done to the tables. */
  ghost predicate Told<Item>(ops: Ops<Item>, maintenance: string, host: string, outcomes: seq<CollectorOutcome<Item>>,
                             db: DB<Item>, db': DB<Item>) {
    && (forall key :: ErrorTold(maintenance, host, outcomes, db.errors, db'.errors, key))
    && (forall key :: DataTold(ops, maintenance, host, outcomes, db.latest, db'.latest, key))
    && (AllFailed(outcomes) ==> db' == db.(errors := db'.errors))
  }

  lemma ErrorToldNext<Item>(ops: Ops<Item>, maintenance: string, host: string, outcomes: seq<CollectorOutcome<Item>>,
                            i: nat, now: int, before: map<Key, string>, db: DB<Item>, db': DB<Item>, key: Key)
    requires i < |outcomes| && ErrorTold(maintenance, host, outcomes[..i], before, db.errors, key)
    requires Tabled(ops, Key(maintenance, outcomes[i].apiName, host), outcomes[i].outcome, now, db, db')
    ensures ErrorTold(maintenance, host, outcomes[..i + 1], before, db'.errors, key)
  {
    OutcomesNext(outcomes, i, key.ctype);
  }

  lemma DataToldNext<Item>(ops: Ops<Item>, maintenance: string, host: string, outcomes: seq<CollectorOutcome<Item>>,
                           i: nat, now: int, before: map<Key, Latest>, db: DB<Item>, db': DB<Item>, key: Key)
    requires i < |outcomes| && DataTold(ops, maintenance, host, outcomes[..i], before, db.latest, key)
    requires Tabled(ops, Key(maintenance, outcomes[i].apiName, host), outcomes[i].outcome, now, db, db')
    ensures DataTold(ops, maintenance, host, outcomes[..i + 1], before, db'.latest, key)
  {
    OutcomesNext(outcomes, i, key.ctype);
  }

  lemma ToldNext<Item>(ops: Ops<Item>, maintenance: string, host: string, outcomes: seq<CollectorOutcome<Item>>,
                       i: nat, now: int, start: DB<Item>, db: DB<Item>, db': DB<Item>)
    requires i < |outcomes| && Told(ops, maintenance, host, outcomes[..i], start, db)
    requires Tabled(ops, Key(maintenance, outcomes[i].apiName, host), outcomes[i].outcome, now, db, db')
    ensures Told(ops, maintenance, host, outcomes[..i + 1], start, db')
  {
    ghost var next := outcomes[..i + 1];
    forall key ensures ErrorTold(maintenance, host, next, start.errors, db'.errors, key) {
      ErrorToldNext(ops, maintenance, host, outcomes, i, now, start.errors, db, db', key);
    }
    forall key ensures DataTold(ops, maintenance, host, next, start.latest, db'.latest, key) {
      DataToldNext(ops, maintenance, host, outcomes, i, now, start.latest, db, db', key);
    }
    OutcomesNext(outcomes, i, "");
  }

  datatype RetentionStats = RetentionStats(batchesDeleted: nat, latestDeleted: nat, errorsDeleted: nat)

  class Store<Item(==)> {
    const ops: Ops<Item>
    var batches: seq<Batch>
    var records: seq<Record<Item>>
    var latest: map<Key, Latest>
    var errors: map<Key, string>
    var nextId: nat
    ghost var history: seq<Event<Item>>

    ghost function Abs(): DB<Item>
      reads this
    {
      DB(batches, records, latest, errors, nextId)
    }

    ghost predicate Valid()
      reads this
    {
      Abs() == Replay(ops, history)
    }

    constructor (ops: Ops<Item>)
      ensures this.ops == ops && history == [] && Valid()
    {
      this.ops := ops;
      batches, records, latest, errors, nextId, history := [], [], map[], map[], 1, [];
    }

    /** `save_batch`; `created` is the new batch, if one was needed. */
    method SaveBatch(key: Key, items: seq<Item>, now: int) returns (created: Option<Batch>)
      modifies this
      ensures Abs() == Save(ops, old(Abs()), key, items, now)
      ensures created.Some? <==> batches != old(batches)
      ensures created.Some? ==> batches == old(batches) + [created.value]
      ensures created.None? ==>
        && key in latest && latest[key].dataHash == ops.hash(multiset(items))
        && Abs() == old(Abs()).(latest := old(latest)[key := old(latest)[key].(lastCheckedAt := now)])
      ensures created.Some? ==>
        && created.value == Batch(old(nextId), key, |items|, now) && nextId == old(nextId) + 1
        && latest == old(latest)[key := Latest(old(nextId), ops.hash(multiset(items)), now, now)]
        && |records| == |old(records)| + |items| && old(records) <= records
        && forall i :: 0 <= i < |items| ==>
             records[|old(records)| + i]
               == Record(old(nextId), key.maintenance, key.host, now, ops.normalize(items[i]))
      ensures history == old(history)
    {
      var dataHash := ops.hash(multiset(items));
      if key in latest && latest[key].dataHash == dataHash {
        latest := latest[key := latest[key].(lastCheckedAt := now)];
        return None;
      }
      var batch := Batch(nextId, key, |items|, now);
      batches := batches + [batch];
      nextId := nextId + 1;
      for i := 0 to |items|
        invariant batches == old(batches) + [batch] && nextId == old(nextId) + 1
        invariant latest == old(latest) && errors == old(errors) && history == old(history)
        invariant records == old(records) + NewRecords(ops, batch.id, key, now, items[..i])
      {
        MapAppend(items[..i], [items[i]],
                  (x: Item) => Record(batch.id, key.maintenance, key.host, now, ops.normalize(x)));
        assert items[..i + 1] == items[..i] + [items[i]];
        records := records + [Record(batch.id, key.maintenance, key.host, now, ops.normalize(items[i]))];
      }
      assert items[..|items|] == items;
      latest := latest[key := Latest(batch.id, dataHash, now, now)];
      return Some(batch);
    }

    /** One iteration of `_save_device_results`: data or error row, never both. */
    method SaveOutcome(maintenance: string, host: string, c: CollectorOutcome<Item>, now: int)
      requires Valid()
      modifies this
      ensures Valid() && history == old(history) + [EventOf(maintenance, host, c, now)]
      ensures Tabled(ops, Key(maintenance, c.apiName, host), c.outcome, now, old(Abs()), Abs())
    {
      var key := Key(maintenance, c.apiName, host);
      match c.outcome
      case Collected(items) =>
        var created := SaveBatch(key, items, now);
        errors := errors - {key};
        Commit(Observed(key, items, now));
      case Failed(status, message) =>
        var text := if NonEmpty(message) then message.value else status;
        errors := errors[key := text];
        Commit(Failure(key, text));
    }

    /** `_save_device_results`: all outcomes of one device in one transaction. */
    method SaveDeviceResults(maintenance: string, host: string, outcomes: seq<CollectorOutcome<Item>>, now: int)
      requires Valid()
      modifies this
      ensures Valid()
      ensures history == old(history) + EventsOf(maintenance, host, outcomes, now)
      ensures Told(ops, maintenance, host, outcomes, old(Abs()), Abs())
    {
      for i := 0 to |outcomes|
        invariant Valid()
        invariant history == old(history) + EventsOf(maintenance, host, outcomes[..i], now)
        invariant Told(ops, maintenance, host, outcomes[..i], old(Abs()), Abs())
      {
        ghost var before := Abs();
        EventsOfNext(maintenance, host, outcomes, now, i, old(history));
        SaveOutcome(maintenance, host, outcomes[i], now);
        ToldNext(ops, maintenance, host, outcomes, i, now, old(Abs()), before, Abs());
      }
      assert outcomes[..|outcomes|] == outcomes;
    }

    /** Records a change that has already been made to the tables. */
    ghost method Commit(e: Event<Item>)
      requires Abs() == Apply(ops, Replay(ops, history), e)
      modifies this`history
      ensures Valid() && history == old(history) + [e]
    {
      assert (history + [e])[..|history|] == history;
      history := history + [e];
    }

    /** `cleanup_old_batches` */
    method CleanupOldBatches(cutoff: int) returns (deleted: nat)
      requires Valid()
      modifies this
      ensures Valid() && history == old(history) + [OldCleaned(cutoff)]
      ensures deleted == |old(batches)| - |batches|
    {
      var before := |batches|;
      var ids := set k | k in latest :: latest[k].batchId;
      DeleteBatches(Young(ids, cutoff));
      deleted := before - |batches|;
      Commit(OldCleaned(cutoff));
    }

    /** `cleanup_deactivated` */
    method CleanupDeactivatedMaintenances(expired: set<string>) returns (stats: RetentionStats)
      requires Valid()
      modifies this
      ensures Valid() && history == old(history) + [Deactivated(expired)]
      ensures stats.batchesDeleted == |old(batches)| - |batches|
      ensures stats.latestDeleted == |old(latest)| - |latest|
      ensures stats.errorsDeleted == |old(errors)| - |errors|
    {
      var b, l, r := |batches|, |latest|, |errors|;
      latest := Surviving(latest, expired);
      DeleteBatches(NotExpired(expired));
      errors := Surviving(errors, expired);
      stats := RetentionStats(b - |batches|, l - |latest|, r - |errors|);
      assert Abs() == CleanupDeactivated(old(Abs()), expired);
      Commit(Deactivated(expired));
    }

    /** DELETE of the rows of the expired maintenances. */
    static method Surviving<V>(table: map<Key, V>, expired: set<string>) returns (rest: map<Key, V>)
      ensures rest == map k | k in table && k.maintenance !in expired :: table[k]
      ensures |rest| <= |table|
    {
      rest := map k | k in table && k.maintenance !in expired :: table[k];
      Shrinks(table, rest);
    }

    /** DELETE on the batch table; the foreign key cascades to the records. */
    method DeleteBatches(keep: Batch -> bool)
      modifies this`batches, this`records
      ensures Abs() == Retain(old(Abs()), keep)
      ensures |batches| <= |old(batches)|
    {
      FilterShorter(batches, keep);
      batches := Filter(batches, keep);
      var ids := set b | b in batches :: b.id;
      records := Filter(records, InBatches(ids));
    }

    /** `get_latest_per_device` */
    method GetLatestPerDevice(maintenance: string, ctype: string) returns (rows: seq<Record<Item>>)
      ensures rows == GetLatest(Abs(), maintenance, ctype)
    {
      var ids := set k | k in latest && k.maintenance == maintenance && k.ctype == ctype :: latest[k].batchId;
      rows := Filter(records, InLatest(ids, maintenance));
    }
  }

  lemma Shrinks<K, V>(a: map<K, V>, b: map<K, V>)
    requires b.Keys <= a.Keys
    ensures |b| <= |a|
  {
    var rest := a.Keys - b.Keys;
    assert a.Keys == b.Keys + rest;
    assert |a.Keys| == |b.Keys| + |rest|;
    assert |a| == |a.Keys| && |b| == |b.Keys|;
  }
}
