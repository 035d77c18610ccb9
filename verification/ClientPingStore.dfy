/** `ClientPingRecordRepo.save_batch` on the tables of the store, updating rows in place. */
module ClientPingStore {
  import opened Seqs
  import opened TypedStore
  import opened StoreRefinement
  import opened CollectionStore
  import opened ClientPing

  /** Whether `Write` does anything. */
  predicate Differs(existing: map<string, nat>, records: seq<Record<Ping>>, id: nat, item: Ping)
    requires Indexes(existing, records, id)
  {
    item.target !in existing || records[existing[item.target]].data.reachable != item.reachable
  }

  /** Whether some item of the snapshot is written when the items are taken in turn. */
  predicate AnyDiffers(existing: map<string, nat>, records: seq<Record<Ping>>, key: Key, id: nat, now: int,
                       items: seq<Ping>)
    requires Indexes(existing, records, id)
  {
    items != [] &&
    (AnyDiffers(existing, records, key, id, now, Front(items))
     || Differs(existing, Merged(existing, records, key, id, now, Front(items)), id, Last(items)))
  }

  lemma {:induction false} NothingWritten(existing: map<string, nat>, records: seq<Record<Ping>>, key: Key,
                                          id: nat, now: int, items: seq<Ping>)
    requires Indexes(existing, records, id) && !AnyDiffers(existing, records, key, id, now, items)
    ensures Merged(existing, records, key, id, now, items) == records
  {
    if items != [] { NothingWritten(existing, records, key, id, now, Front(items)); }
  }

  method ReadExisting(records: seq<Record<Ping>>, id: nat) returns (existing: map<string, nat>)
    ensures existing == Existing(records, id)
  {
    existing := map[];
    for i := 0 to |records|
      invariant existing == Existing(records[..i], id)
    {
      TakeNext(records, i);
      assert Front(records[..i + 1]) == records[..i];
      if records[i].batchId == id {
        existing := existing[records[i].data.target := i];
      }
    }
    assert records[..|records|] == records;
  }

  lemma MergedNext(existing: map<string, nat>, records: seq<Record<Ping>>, key: Key, id: nat, now: int,
                   items: seq<Ping>, i: nat)
    requires Indexes(existing, records, id) && i < |items|
    ensures var before := Merged(existing, records, key, id, now, items[..i]);
      && Merged(existing, records, key, id, now, items[..i + 1]) == Write(existing, before, key, id, now, items[i])
      && (AnyDiffers(existing, records, key, id, now, items[..i + 1]) <==>
          AnyDiffers(existing, records, key, id, now, items[..i]) || Differs(existing, before, id, items[i]))
  {
    assert Front(items[..i + 1]) == items[..i];
  }

  /** One item against the row it concerns. */
  method WriteItem(tables: Store<Ping>, existing: map<string, nat>, key: Key, id: nat, item: Ping, now: int)
    returns (differs: bool)
    requires Indexes(existing, tables.records, id)
    modifies tables`records
    ensures tables.records == Write(existing, old(tables.records), key, id, now, item)
    ensures differs == Differs(existing, old(tables.records), id, item)
  {
    if item.target !in existing {
      tables.records := tables.records + [Record(id, key.maintenance, key.host, now, item)];
      return true;
    }
    var row := tables.records[existing[item.target]];
    if row.data.reachable != item.reachable {
      tables.records := tables.records[existing[item.target] :=
        row.(data := row.data.(reachable := item.reachable), collectedAt := now)];
      return true;
    }
    return false;
  }

  /** The rows of one batch against a new snapshot; `changed` counts what was written. */
  method WriteChanges(tables: Store<Ping>, existing: map<string, nat>, key: Key, id: nat, items: seq<Ping>, now: int)
    returns (changed: nat)
    requires Indexes(existing, tables.records, id)
    modifies tables`records
    ensures tables.records == Merged(existing, old(tables.records), key, id, now, items)
    ensures changed > 0 <==> AnyDiffers(existing, old(tables.records), key, id, now, items)
  {
    changed := 0;
    for i := 0 to |items|
      invariant tables.records == Merged(existing, old(tables.records), key, id, now, items[..i])
      invariant changed > 0 <==> AnyDiffers(existing, old(tables.records), key, id, now, items[..i])
    {
      MergedNext(existing, old(tables.records), key, id, now, items, i);
      var differs := WriteItem(tables, existing, key, id, items[i], now);
      changed := changed + if differs then 1 else 0;
    }
    assert items[..|items|] == items;
  }

  /** `ClientPingRecordRepo.save_batch`; `written` says whether any row was inserted or changed. */
  method SaveClientPing(tables: Store<Ping>, key: Key, items: seq<Ping>, now: int) returns (written: bool)
    modifies tables
    ensures tables.Abs() == SavePing(tables.ops, old(tables.Abs()), key, items, now)
    ensures !written ==> tables.records == old(tables.records)
  {
    var dataHash := tables.ops.hash(multiset(items));
    if key in tables.latest && tables.latest[key].dataHash == dataHash {
      tables.latest := tables.latest[key := tables.latest[key].(lastCheckedAt := now)];
      return false;
    }
    if key !in tables.latest {
      var created := tables.SaveBatch(key, items, now);
      return true;
    }
    var id := tables.latest[key].batchId;
    var existing := ReadExisting(tables.records, id);
    ExistingIndexes(tables.records, id);
    var changed := WriteChanges(tables, existing, key, id, items, now);
    if changed == 0 { NothingWritten(existing, old(tables.records), key, id, now, items); }
    tables.batches := Map(tables.batches, Touched(id, |items|, now));
    tables.latest := tables.latest[key := Latest(id, dataHash, now, now)];
    return changed > 0;
  }
}
