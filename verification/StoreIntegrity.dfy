/**
 Every operation of the store keeps its tables consistent: foreign keys hold, batch ids increase,
 and each key's pointer, if any, is its newest batch.
 */
module StoreIntegrity {
  import opened Seqs
  import opened TypedStore

  // -- appending a batch --

  lemma GrownBatches<Item>(ops: Ops<Item>, db: DB<Item>, key: Key, items: seq<Item>, now: int, k: Key)
    ensures BatchesOf(Grown(ops, db, key, items, now), k)
      == BatchesOf(db, k) + if k == key then [Batch(db.nextId, key, |items|, now)] else []
  {
    var b := Batch(db.nextId, key, |items|, now);
    FilterAppend(db.batches, [b], OfKey(k));
    FilterOne(b, OfKey(k));
  }

  lemma NoRecordYet<Item>(db: DB<Item>)
    requires RecordKeys(db) && BatchTable(db)
    ensures forall r :: r in db.records ==> r.batchId != db.nextId
  {
    forall r | r in db.records ensures r.batchId != db.nextId {
      var b :| b in db.batches && Owns(b, r);
    }
  }

  lemma NewRows<Item>(ops: Ops<Item>, id: nat, key: Key, now: int, items: seq<Item>, prior: seq<Record<Item>>)
    requires forall r :: r in prior ==> r.batchId != id
    ensures Filter(prior + NewRecords(ops, id, key, now, items), OfBatch<Item>(id))
      == NewRecords(ops, id, key, now, items)
  {
    var added := NewRecords(ops, id, key, now, items);
    FilterAppend(prior, added, OfBatch<Item>(id));
    FilterNone(prior, OfBatch<Item>(id));
    FilterAll(added, OfBatch<Item>(id));
    assert [] + added == added;
  }

  lemma NewData<Item>(ops: Ops<Item>, id: nat, key: Key, now: int, items: seq<Item>)
    ensures Data(NewRecords(ops, id, key, now, items)) == Normalized(ops, items)
  {
  }

  lemma OtherContent<Item>(ops: Ops<Item>, id: nat, key: Key, now: int, items: seq<Item>,
                           prior: seq<Record<Item>>, other: nat)
    requires other != id
    ensures Filter(prior + NewRecords(ops, id, key, now, items), OfBatch<Item>(other))
      == Filter(prior, OfBatch<Item>(other))
  {
    var added := NewRecords(ops, id, key, now, items);
    FilterAppend(prior, added, OfBatch<Item>(other));
    FilterNone(added, OfBatch<Item>(other));
  }

  lemma GrownContent<Item>(ops: Ops<Item>, db: DB<Item>, key: Key, items: seq<Item>, now: int, b: Batch)
    requires RecordKeys(db) && BatchTable(db)
    ensures b in db.batches ==> Content(Grown(ops, db, key, items, now), b) == Content(db, b)
    ensures b.id == db.nextId ==> Content(Grown(ops, db, key, items, now), b) == Normalized(ops, items)
  {
    if b in db.batches {
      OtherContent(ops, db.nextId, key, now, items, db.records, b.id);
    } else if b.id == db.nextId {
      NoRecordYet(db);
      NewRows(ops, db.nextId, key, now, items, db.records);
      NewData(ops, db.nextId, key, now, items);
    }
  }

  lemma GrownIntegrity<Item>(ops: Ops<Item>, db: DB<Item>, key: Key, items: seq<Item>, now: int)
    requires Integrity(db)
    ensures Integrity(Grown(ops, db, key, items, now))
  {
    var db' := Grown(ops, db, key, items, now);
    var b := Batch(db.nextId, key, |items|, now);
    assert b in db'.batches;
    forall r | r in db'.records ensures exists c :: c in db'.batches && Owns(c, r) {
      if r in db.records {
        var c :| c in db.batches && Owns(c, r);
        assert c in db'.batches;
      } else {
        assert Owns(b, r);
      }
    }
    forall k ensures PointerOk(db', k) {
      GrownBatches(ops, db, key, items, now, k);
      assert PointerOk(db, k);
    }
  }

  // -- deleting batches --

  lemma RetainBatches<Item>(db: DB<Item>, keep: Batch -> bool, key: Key)
    ensures BatchesOf(Retain(db, keep), key) == Filter(BatchesOf(db, key), keep)
  {
    FilterCommute(db.batches, keep, OfKey(key));
  }

  lemma RetainContent<Item>(db: DB<Item>, keep: Batch -> bool, b: Batch)
    requires b in db.batches && keep(b)
    ensures Content(Retain(db, keep), b) == Content(db, b)
  {
    FilterMember(db.batches, keep, b);
    var ids := Ids(Filter(db.batches, keep));
    assert b.id in ids;
    FilterAbsorb(db.records, InBatches(ids), OfBatch(b.id));
  }

  lemma RetainTables<Item>(db: DB<Item>, keep: Batch -> bool)
    requires BatchTable(db) && RecordKeys(db)
    ensures BatchTable(Retain(db, keep)) && RecordKeys(Retain(db, keep))
  {
    var db' := Retain(db, keep);
    FilterOrdered(db.batches, keep, (a: Batch, b: Batch) => a.id < b.id);
    forall b | b in db'.batches ensures b.id < db'.nextId { FilterMember(db.batches, keep, b); }
    var ids := Ids(db'.batches);
    forall r | r in db'.records ensures exists b :: b in db'.batches && Owns(b, r) {
      FilterMember(db.records, InBatches(ids), r);
      var b :| b in db.batches && Owns(b, r);
      var c :| c in db'.batches && c.id == r.batchId;
      FilterMember(db.batches, keep, c);
      SameBatch(db, b, c);
    }
  }

  lemma CleanupOldIntegrity<Item>(db: DB<Item>, cutoff: int)
    requires Integrity(db)
    ensures Integrity(CleanupOld(db, cutoff))
  {
    var keep := Young(LatestIds(db), cutoff);
    RetainTables(db, keep);
    forall key ensures PointerOk(CleanupOld(db, cutoff), key) {
      assert PointerOk(db, key);
      RetainBatches(db, keep, key);
      var own := BatchesOf(db, key);
      if own != [] { assert keep(Last(own)); }
    }
  }

  /** Exactly the over-age batches that no key uses are deleted, and the rows of the others stay. */
  lemma CleanupOldExact<Item>(db: DB<Item>, cutoff: int, b: Batch)
    requires b in db.batches
    ensures var db' := CleanupOld(db, cutoff);
      && (b in db'.batches <==> b.collectedAt >= cutoff || exists k :: k in db.latest && db.latest[k].batchId == b.id)
      && (b in db'.batches ==> Content(db', b) == Content(db, b))
      && db' == db.(batches := db'.batches, records := db'.records)
  {
    FilterMember(db.batches, Young(LatestIds(db), cutoff), b);
    if b in CleanupOld(db, cutoff).batches { RetainContent(db, Young(LatestIds(db), cutoff), b); }
  }

  /** Wiping a maintenance removes all its batches and nobody else's. */
  ghost predicate WipedBatches<Item>(db: DB<Item>, expired: set<string>, key: Key) {
    BatchesOf(CleanupDeactivated(db, expired), key) == (if key.maintenance in expired then [] else BatchesOf(db, key))
  }

  lemma CleanupDeactivatedIntegrity<Item>(db: DB<Item>, expired: set<string>)
    requires Integrity(db)
    ensures Integrity(CleanupDeactivated(db, expired))
    ensures forall key :: WipedBatches(db, expired, key)
  {
    var keep := NotExpired(expired);
    RetainTables(db, keep);
    var db' := CleanupDeactivated(db, expired);
    assert RecordKeys(db') by { assert db'.records == Retain(db, keep).records; }
    forall key
      ensures PointerOk(db', key)
      ensures WipedBatches(db, expired, key)
    {
      assert PointerOk(db, key);
      RetainBatches(db, keep, key);
      var own := BatchesOf(db, key);
      forall b | b in own ensures b.key == key { FilterMember(db.batches, OfKey(key), b); }
      if key.maintenance in expired { FilterNone(own, keep); } else { FilterAll(own, keep); }
    }
  }

  /** The pointer and the error table do not matter to the batches of a key. */
  lemma SaveIntegrity<Item>(ops: Ops<Item>, db: DB<Item>, key: Key, items: seq<Item>, now: int)
    requires Integrity(db)
    ensures Integrity(Save(ops, db, key, items, now))
  {
    var db' := Save(ops, db, key, items, now);
    if key in db.latest && db.latest[key].dataHash == Hash(ops, items) {
      forall k ensures PointerOk(db', k) { assert PointerOk(db, k); }
    } else {
      GrownIntegrity(ops, db, key, items, now);
    }
  }

  lemma ErrorsApart<Item>(db: DB<Item>, errors: map<Key, string>)
    requires Integrity(db)
    ensures Integrity(db.(errors := errors))
  {
    forall k ensures PointerOk(db.(errors := errors), k) { assert PointerOk(db, k); }
  }

  lemma ApplyIntegrity<Item>(ops: Ops<Item>, db: DB<Item>, e: Event<Item>)
    requires Integrity(db)
    ensures Integrity(Apply(ops, db, e))
  {
    match e
    case Observed(key, items, at) =>
      SaveIntegrity(ops, db, key, items, at);
      ErrorsApart(Save(ops, db, key, items, at), db.errors - {key});
    case Failure(key, message) => ErrorsApart(db, db.errors[key := message]);
    case OldCleaned(cutoff) => CleanupOldIntegrity(db, cutoff);
    case Deactivated(expired) => CleanupDeactivatedIntegrity(db, expired);
  }

  /** Over every history the tables are consistent. */
  lemma {:induction false} ReplayIntegrity<Item>(ops: Ops<Item>, history: seq<Event<Item>>)
    ensures Integrity(Replay(ops, history))
  {
    if history != [] {
      ReplayIntegrity(ops, history[..|history| - 1]);
      ApplyIntegrity(ops, Replay(ops, history[..|history| - 1]), Last(history));
    }
  }

  /** A record is stored under a batch that exists; a pointer points to a batch of its own key. */
  lemma ForeignKeys<Item>(ops: Ops<Item>, history: seq<Event<Item>>, r: Record<Item>, key: Key)
    ensures var db := Replay(ops, history);
      && (r in db.records ==> exists b :: b in db.batches && Owns(b, r))
      && (key in db.latest ==> exists b :: b in db.batches && b.key == key && b.id == db.latest[key].batchId)
  {
    ReplayIntegrity(ops, history);
    var db := Replay(ops, history);
    if key in db.latest {
      assert PointerOk(db, key);
      var b := Last(BatchesOf(db, key));
      FilterMember(db.batches, OfKey(key), b);
    }
  }
}
