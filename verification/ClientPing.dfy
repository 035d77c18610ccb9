/**
 The client-ping writer (`ClientPingRecordRepo` in app/repositories/typed_records.py): one batch per
 key, whose rows are updated in place instead of being written anew.
 */
module ClientPing {
  import opened Wrappers
  import opened Seqs
  import opened TypedStore

  datatype Ping = Ping(target: string, reachable: bool)

  /** Ping rows hold no interface name, so there is nothing to normalise. */
  function PingOps(hash: multiset<Ping> -> string): Ops<Ping> {
    Ops((x: Ping) => x, hash)
  }

  // ---- The diff against the rows of the batch ----

  predicate IsRow(r: Record<Ping>, id: nat, target: string) {
    r.batchId == id && r.data.target == target
  }

  /** `existing_records`: the last row of each target in the batch, by position in the table. */
  function Existing(records: seq<Record<Ping>>, id: nat): map<string, nat> {
    if records == [] then map[]
    else
      var before := Existing(Front(records), id);
      if Last(records).batchId == id then before[Last(records).data.target := |records| - 1] else before
  }

  ghost predicate Indexes(existing: map<string, nat>, records: seq<Record<Ping>>, id: nat) {
    forall t :: t in existing ==>
      && existing[t] < |records| && IsRow(records[existing[t]], id, t)
      && forall j :: existing[t] < j < |records| ==> !IsRow(records[j], id, t)
  }

  /** One item: insert a new target, update a changed one, leave the rest. */
  function Write(existing: map<string, nat>, records: seq<Record<Ping>>, key: Key, id: nat, now: int, item: Ping):
    seq<Record<Ping>>
    requires Indexes(existing, records, id)
  {
    if item.target !in existing then
      records + [Record(id, key.maintenance, key.host, now, item)]
    else
      var i := existing[item.target];
      if records[i].data.reachable != item.reachable then
        records[i := records[i].(data := records[i].data.(reachable := item.reachable), collectedAt := now)]
      else records
  }

  lemma WriteKeepsIndexes(existing: map<string, nat>, records: seq<Record<Ping>>, key: Key, id: nat, now: int,
                          item: Ping)
    requires Indexes(existing, records, id)
    ensures Indexes(existing, Write(existing, records, key, id, now, item), id)
  {
  }

  function Merged(existing: map<string, nat>, records: seq<Record<Ping>>, key: Key, id: nat, now: int,
                  items: seq<Ping>): (merged: seq<Record<Ping>>)
    requires Indexes(existing, records, id)
    ensures Indexes(existing, merged, id)
  {
    if items == [] then records
    else
      var before := Merged(existing, records, key, id, now, Front(items));
      WriteKeepsIndexes(existing, before, key, id, now, Last(items));
      Write(existing, before, key, id, now, Last(items))
  }

  /** A row as it was, or with another result for the same target and the time of the update. */
  predicate KeptOrUpdated(r: Record<Ping>, r': Record<Ping>, id: nat, now: int) {
    || r' == r
    || (r.batchId == id && r' == r.(collectedAt := now, data := Ping(r.data.target, r'.data.reachable)))
  }

  /** No row is lost or moved, only rows of the batch change, and new rows are those of new targets. */
  lemma {:induction false} MergedRows(existing: map<string, nat>, records: seq<Record<Ping>>, key: Key, id: nat,
                                      now: int, items: seq<Ping>)
    requires Indexes(existing, records, id)
    ensures var merged := Merged(existing, records, key, id, now, items);
      && |records| <= |merged|
      && (forall i :: 0 <= i < |records| ==> KeptOrUpdated(records[i], merged[i], id, now))
      && (forall i :: |records| <= i < |merged| ==>
           && merged[i] == Record(id, key.maintenance, key.host, now, merged[i].data)
           && merged[i].data in items && merged[i].data.target !in existing)
  {
    if items != [] {
      MergedRows(existing, records, key, id, now, Front(items));
      assert items == Front(items) + [Last(items)];
    }
  }

  lemma {:induction false} ExistingIndexes(records: seq<Record<Ping>>, id: nat)
    ensures Indexes(Existing(records, id), records, id)
  {
    if records != [] { ExistingIndexes(Front(records), id); }
  }

  function Touched(id: nat, count: nat, now: int): Batch -> Batch {
    (b: Batch) => if b.id == id then b.(itemCount := count, collectedAt := now) else b
  }

  function UpdateInPlace(ops: Ops<Ping>, db: DB<Ping>, key: Key, items: seq<Ping>, now: int): DB<Ping>
    requires key in db.latest
  {
    var id := db.latest[key].batchId;
    ExistingIndexes(db.records, id);
    db.(batches := Map(db.batches, Touched(id, |items|, now)),
        records := Merged(Existing(db.records, id), db.records, key, id, now, items),
        latest := db.latest[key := Latest(id, Hash(ops, items), now, now)])
  }

  /** `ClientPingRecordRepo.save_batch` */
  function SavePing(ops: Ops<Ping>, db: DB<Ping>, key: Key, items: seq<Ping>, now: int): DB<Ping> {
    if key !in db.latest then Grown(ops, db, key, items, now)
    else if db.latest[key].dataHash == Hash(ops, items) then
      db.(latest := db.latest[key := db.latest[key].(lastCheckedAt := now)])
    else UpdateInPlace(ops, db, key, items, now)
  }

  // ---- Target to reachable ----

  /** What a reader makes of the rows: a later row of a target replaces an earlier one. */
  function PingMap(items: seq<Ping>): map<string, bool> {
    if items == [] then map[] else PingMap(Front(items))[Last(items).target := Last(items).reachable]
  }

  function View(db: DB<Ping>, key: Key): map<string, bool> {
    if key in db.latest then PingMap(Data(RecordsOf(db, db.latest[key].batchId))) else map[]
  }

  /** Every snapshot in turn overrides what was known. */
  function Fold(snapshots: seq<seq<Ping>>): map<string, bool> {
    if snapshots == [] then map[] else Fold(Front(snapshots)) + PingMap(Last(snapshots))
  }

  /** No target is both reachable and unreachable. */
  ghost predicate Functional(items: seq<Ping>) {
    forall i, j :: 0 <= i < j < |items| && items[i].target == items[j].target ==>
      items[i].reachable == items[j].reachable
  }

  /** The last row of a target in a batch. */
  function Seen(records: seq<Record<Ping>>, id: nat, target: string): Option<bool> {
    if records == [] then None
    else if IsRow(Last(records), id, target) then Some(Last(records).data.reachable)
    else Seen(Front(records), id, target)
  }

  function Get(m: map<string, bool>, target: string): Option<bool> {
    if target in m then Some(m[target]) else None
  }

  lemma {:induction false} SeenIsPingMap(records: seq<Record<Ping>>, id: nat, target: string)
    ensures Seen(records, id, target) == Get(PingMap(Data(Filter(records, OfBatch(id)))), target)
  {
    if records != [] {
      var front, last := Front(records), Last(records);
      SeenIsPingMap(front, id, target);
      if last.batchId == id {
        var before := Data(Filter(front, OfBatch<Ping>(id)));
        assert Data(Filter(records, OfBatch<Ping>(id))) == before + [last.data];
        assert Front(before + [last.data]) == before;
      } else {
        assert Filter(records, OfBatch<Ping>(id)) == Filter(front, OfBatch<Ping>(id));
      }
    }
  }

  lemma SeenAppend(records: seq<Record<Ping>>, r: Record<Ping>, id: nat, target: string)
    ensures Seen(records + [r], id, target)
      == if IsRow(r, id, target) then Some(r.data.reachable) else Seen(records, id, target)
  {
    assert Front(records + [r]) == records;
  }

  /** Updating the last row of a target changes what is seen of that target only. */
  lemma {:induction false} SeenUpdate(records: seq<Record<Ping>>, i: nat, r: Record<Ping>, id: nat, target: string)
    requires i < |records| && IsRow(r, records[i].batchId, records[i].data.target)
    requires forall j :: i < j < |records| ==> !IsRow(records[j], r.batchId, r.data.target)
    ensures Seen(records[i := r], id, target)
      == if IsRow(r, id, target) then Some(r.data.reachable) else Seen(records, id, target)
  {
    if i < |records| - 1 {
      assert Front(records[i := r]) == Front(records)[i := r];
      SeenUpdate(Front(records), i, r, id, target);
    } else {
      assert Front(records[i := r]) == Front(records);
    }
  }

  lemma {:induction false} SeenLast(records: seq<Record<Ping>>, i: nat, id: nat, target: string)
    requires i < |records| && IsRow(records[i], id, target)
    requires forall j :: i < j < |records| ==> !IsRow(records[j], id, target)
    ensures Seen(records, id, target) == Some(records[i].data.reachable)
  {
    if i < |records| - 1 { SeenLast(Front(records), i, id, target); }
  }

  lemma WriteSeen(existing: map<string, nat>, records: seq<Record<Ping>>, key: Key, id: nat, now: int, item: Ping,
                  other: nat, target: string)
    requires Indexes(existing, records, id)
    ensures Seen(Write(existing, records, key, id, now, item), other, target)
      == if other == id && target == item.target then Some(item.reachable) else Seen(records, other, target)
  {
    if item.target !in existing {
      SeenAppend(records, Record(id, key.maintenance, key.host, now, item), other, target);
    } else {
      var i := existing[item.target];
      SeenLast(records, i, id, item.target);
      SeenUpdate(records, i, records[i].(data := records[i].data.(reachable := item.reachable), collectedAt := now),
        other, target);
    }
  }

  lemma {:induction false} MergedSeen(existing: map<string, nat>, records: seq<Record<Ping>>, key: Key, id: nat,
                                      now: int, items: seq<Ping>, other: nat, target: string)
    requires Indexes(existing, records, id)
    ensures Seen(Merged(existing, records, key, id, now, items), other, target)
      == if other == id && target in PingMap(items) then Some(PingMap(items)[target]) else Seen(records, other, target)
  {
    if items != [] {
      MergedSeen(existing, records, key, id, now, Front(items), other, target);
      WriteSeen(existing, Merged(existing, records, key, id, now, Front(items)), key, id, now, Last(items), other,
        target);
    }
  }

  lemma SameMap(a: map<string, bool>, b: map<string, bool>)
    requires forall t :: Get(a, t) == Get(b, t)
    ensures a == b
  {
    forall t ensures t in a <==> t in b { assert Get(a, t) == Get(b, t); }
    forall t | t in a ensures a[t] == b[t] { assert Get(a, t) == Get(b, t); }
  }

  /** The batch of the key is overridden by the snapshot; every other batch reads as before. */
  lemma UpdateView(ops: Ops<Ping>, db: DB<Ping>, key: Key, items: seq<Ping>, now: int, k: Key)
    requires key in db.latest
    requires k in db.latest && k != key ==> db.latest[k].batchId != db.latest[key].batchId
    ensures View(UpdateInPlace(ops, db, key, items, now), k)
      == if k == key then View(db, k) + PingMap(items) else View(db, k)
  {
    var db' := UpdateInPlace(ops, db, key, items, now);
    var id := db.latest[key].batchId;
    ExistingIndexes(db.records, id);
    if k in db.latest {
      forall t ensures Get(View(db', k), t) == Get(if k == key then View(db, k) + PingMap(items) else View(db, k), t) {
        MergedSeen(Existing(db.records, id), db.records, key, id, now, items, db.latest[k].batchId, t);
        SeenIsPingMap(db.records, db.latest[k].batchId, t);
        SeenIsPingMap(db'.records, db.latest[k].batchId, t);
      }
      SameMap(View(db', k), if k == key then View(db, k) + PingMap(items) else View(db, k));
    }
  }
}
