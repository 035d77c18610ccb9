/**
 The store against its reference: over every history of collections and clean-ups, what it returns
 as latest is the last snapshot observed, and what it keeps are the change points.
 */
module StoreRefinement {
  import opened Wrappers
  import opened Seqs
  import opened TypedStore
  import opened StoreIntegrity

  // ---- Change points of a list of snapshots ----

  lemma {:induction false} CollapseLast<Item>(ops: Ops<Item>, snapshots: seq<seq<Item>>)
    requires snapshots != []
    ensures Collapse(ops, snapshots) != []
    ensures Hash(ops, Last(Collapse(ops, snapshots))) == Hash(ops, Last(snapshots))
  {
    if |snapshots| > 1 { CollapseLast(ops, Front(snapshots)); }
  }

  lemma CollapseAppend<Item>(ops: Ops<Item>, snapshots: seq<seq<Item>>, items: seq<Item>)
    ensures Collapse(ops, snapshots + [items]) == Collapse(ops, snapshots) +
      (if snapshots != [] && Hash(ops, Last(snapshots)) == Hash(ops, items) then [] else [items])
  {
    assert Front(snapshots + [items]) == snapshots;
  }

  /** Neighbouring change points differ. */
  lemma {:induction false} CollapseNeighbours<Item>(ops: Ops<Item>, snapshots: seq<seq<Item>>)
    ensures var c := Collapse(ops, snapshots); forall i :: 0 < i < |c| ==> Hash(ops, c[i - 1]) != Hash(ops, c[i])
  {
    if snapshots != [] {
      CollapseNeighbours(ops, Front(snapshots));
      if |snapshots| > 1 { CollapseLast(ops, Front(snapshots)); }
    }
  }

  /** Change points are snapshots, and no snapshot's content is lost. */
  lemma {:induction false} CollapseCovers<Item>(ops: Ops<Item>, snapshots: seq<seq<Item>>, items: seq<Item>)
    ensures items in Collapse(ops, snapshots) ==> items in snapshots
    ensures items in snapshots ==> exists x :: x in Collapse(ops, snapshots) && Hash(ops, x) == Hash(ops, items)
  {
    if snapshots != [] {
      var front, last := Front(snapshots), Last(snapshots);
      assert snapshots == front + [last];
      CollapseCovers(ops, front, items);
      var c := Collapse(ops, snapshots);
      assert forall x :: x in Collapse(ops, front) ==> x in c;
      if items == last {
        CollapseLast(ops, snapshots);
        assert c[|c| - 1] in c;
      }
    }
  }

  // ---- One key of the database against its snapshots ----

  ghost predicate PointerMatches<Item>(ops: Ops<Item>, db: DB<Item>, key: Key, snapshots: seq<seq<Item>>) {
    && (key in db.latest <==> snapshots != [])
    && (snapshots != [] ==> db.latest[key].dataHash == Hash(ops, Last(snapshots)))
  }

  ghost predicate LatestMatches<Item>(ops: Ops<Item>, db: DB<Item>, key: Key, snapshots: seq<seq<Item>>) {
    snapshots != [] ==>
      && BatchesOf(db, key) != [] && Collapse(ops, snapshots) != []
      && Content(db, Last(BatchesOf(db, key))) == Normalized(ops, Last(Collapse(ops, snapshots)))
  }

  lemma BatchOfKey<Item>(db: DB<Item>, key: Key, b: Batch)
    requires b in BatchesOf(db, key)
    ensures b in db.batches && b.key == key
  {
    FilterMember(db.batches, OfKey(key), b);
  }

  /** Saving a key: its pointer and newest batch follow the snapshot. */
  lemma SaveOwnLatest<Item>(ops: Ops<Item>, db: DB<Item>, key: Key, items: seq<Item>, now: int,
                            snapshots: seq<seq<Item>>)
    requires Integrity(db) && PointerMatches(ops, db, key, snapshots) && LatestMatches(ops, db, key, snapshots)
    ensures PointerMatches(ops, Save(ops, db, key, items, now), key, snapshots + [items])
    ensures LatestMatches(ops, Save(ops, db, key, items, now), key, snapshots + [items])
  {
    CollapseAppend(ops, snapshots, items);
    if !(key in db.latest && db.latest[key].dataHash == Hash(ops, items)) {
      GrownBatches(ops, db, key, items, now, key);
      GrownContent(ops, db, key, items, now, Batch(db.nextId, key, |items|, now));
    }
  }

  /** Saving another key changes nothing for this one. */
  lemma SaveOtherLatest<Item>(ops: Ops<Item>, db: DB<Item>, key: Key, items: seq<Item>, now: int, k: Key,
                              snapshots: seq<seq<Item>>)
    requires Integrity(db) && PointerMatches(ops, db, k, snapshots) && LatestMatches(ops, db, k, snapshots)
    requires k != key
    ensures PointerMatches(ops, Save(ops, db, key, items, now), k, snapshots)
    ensures LatestMatches(ops, Save(ops, db, key, items, now), k, snapshots)
  {
    if !(key in db.latest && db.latest[key].dataHash == Hash(ops, items)) {
      GrownBatches(ops, db, key, items, now, k);
      if snapshots != [] {
        BatchOfKey(db, k, Last(BatchesOf(db, k)));
        GrownContent(ops, db, key, items, now, Last(BatchesOf(db, k)));
      }
    }
  }

  lemma SaveLatest<Item>(ops: Ops<Item>, db: DB<Item>, key: Key, items: seq<Item>, now: int, k: Key,
                         snapshots: seq<seq<Item>>)
    requires Integrity(db) && PointerMatches(ops, db, k, snapshots) && LatestMatches(ops, db, k, snapshots)
    ensures var db' := Save(ops, db, key, items, now);
      var snapshots' := if k == key then snapshots + [items] else snapshots;
      PointerMatches(ops, db', k, snapshots') && LatestMatches(ops, db', k, snapshots')
  {
    if k == key {
      SaveOwnLatest(ops, db, key, items, now, snapshots);
    } else {
      SaveOtherLatest(ops, db, key, items, now, k, snapshots);
    }
  }

  /** The error rows do not matter to the data of a key. */
  lemma ErrorsApartLatest<Item>(ops: Ops<Item>, db: DB<Item>, errors: map<Key, string>, key: Key,
                                snapshots: seq<seq<Item>>)
    requires PointerMatches(ops, db, key, snapshots) && LatestMatches(ops, db, key, snapshots)
    ensures PointerMatches(ops, db.(errors := errors), key, snapshots)
    ensures LatestMatches(ops, db.(errors := errors), key, snapshots)
  {
    if snapshots != [] {
      assert Content(db.(errors := errors), Last(BatchesOf(db, key))) == Content(db, Last(BatchesOf(db, key)));
    }
  }

  /** Deleting batches of a key but not its newest. */
  lemma RetainLatest<Item>(db: DB<Item>, keep: Batch -> bool, key: Key)
    requires BatchesOf(db, key) != [] && keep(Last(BatchesOf(db, key)))
    ensures BatchesOf(Retain(db, keep), key) != []
    ensures Last(BatchesOf(Retain(db, keep), key)) == Last(BatchesOf(db, key))
    ensures Content(Retain(db, keep), Last(BatchesOf(db, key))) == Content(db, Last(BatchesOf(db, key)))
  {
    RetainBatches(db, keep, key);
    BatchOfKey(db, key, Last(BatchesOf(db, key)));
    RetainContent(db, keep, Last(BatchesOf(db, key)));
  }

  lemma CleanedLatest<Item>(ops: Ops<Item>, db: DB<Item>, cutoff: int, key: Key, snapshots: seq<seq<Item>>)
    requires Integrity(db) && PointerMatches(ops, db, key, snapshots) && LatestMatches(ops, db, key, snapshots)
    ensures PointerMatches(ops, CleanupOld(db, cutoff), key, snapshots)
    ensures LatestMatches(ops, CleanupOld(db, cutoff), key, snapshots)
  {
    if snapshots != [] {
      assert PointerOk(db, key);
      RetainLatest(db, Young(LatestIds(db), cutoff), key);
    }
  }

  lemma WipedLatest<Item>(ops: Ops<Item>, db: DB<Item>, expired: set<string>, key: Key, snapshots: seq<seq<Item>>)
    requires Integrity(db) && PointerMatches(ops, db, key, snapshots) && LatestMatches(ops, db, key, snapshots)
    ensures var db' := CleanupDeactivated(db, expired);
      var snapshots' := if key.maintenance in expired then [] else snapshots;
      PointerMatches(ops, db', key, snapshots') && LatestMatches(ops, db', key, snapshots')
  {
    if key.maintenance !in expired && snapshots != [] {
      var b := Last(BatchesOf(db, key));
      BatchOfKey(db, key, b);
      RetainLatest(db, NotExpired(expired), key);
      assert Content(CleanupDeactivated(db, expired), b) == Content(Retain(db, NotExpired(expired)), b);
    }
  }

  lemma {:induction false} ReplayLatest<Item>(ops: Ops<Item>, history: seq<Event<Item>>, key: Key)
    ensures PointerMatches(ops, Replay(ops, history), key, Snapshots(history, key))
    ensures LatestMatches(ops, Replay(ops, history), key, Snapshots(history, key))
  {
    if history != [] {
      var front := Front(history);
      ReplayLatest(ops, front, key);
      ReplayIntegrity(ops, front);
      var db, snapshots := Replay(ops, front), Snapshots(front, key);
      match Last(history)
      case Observed(k, items, at) =>
        SaveLatest(ops, db, k, items, at, key, snapshots);
        ErrorsApartLatest(ops, Save(ops, db, k, items, at), db.errors - {k}, key, After(snapshots, Last(history), key));
      case Failure(k, message) => ErrorsApartLatest(ops, db, db.errors[k := message], key, snapshots);
      case OldCleaned(cutoff) => CleanedLatest(ops, db, cutoff, key, snapshots);
      case Deactivated(expired) => WipedLatest(ops, db, expired, key, snapshots);
    }
  }

  // ---- The query ----

  /** The latest rows of a device are the records of its newest batch. */
  lemma LatestOfIsContent<Item>(db: DB<Item>, key: Key)
    requires Integrity(db)
    ensures PointerOk(db, key)
    ensures LatestOf(db, key) == if key in db.latest then Content(db, Last(BatchesOf(db, key))) else []
  {
    var ids := LatestIdsOf(db, key.maintenance, key.ctype);
    var inLatest := InLatest<Item>(ids, key.maintenance);
    var ofHost := OfHost<Item>(key.host);
    assert PointerOk(db, key);
    forall r | r in db.records && inLatest(r) && ofHost(r)
      ensures key in db.latest && r.batchId == db.latest[key].batchId
    {
      var k :| k in db.latest && k.maintenance == key.maintenance && k.ctype == key.ctype
          && db.latest[k].batchId == r.batchId;
      assert PointerOk(db, k);
      BatchOfKey(db, k, Last(BatchesOf(db, k)));
      var b :| b in db.batches && Owns(b, r);
      SameBatch(db, b, Last(BatchesOf(db, k)));
    }
    if key in db.latest {
      var own := OfBatch<Item>(db.latest[key].batchId);
      var b := Last(BatchesOf(db, key));
      BatchOfKey(db, key, b);
      forall r | r in db.records && own(r) ensures inLatest(r) && ofHost(r) {
        var c :| c in db.batches && Owns(c, r);
        SameBatch(db, b, c);
      }
      FilterBoth(db.records, inLatest, ofHost, own);
    } else {
      FilterBoth(db.records, inLatest, ofHost, (r: Record<Item>) => false);
      FilterNone(db.records, (r: Record<Item>) => false);
    }
  }

  // ---- Main results ----

  /** Snapshots with the same hash store the same rows: all the store asks of its hash. */
  ghost predicate HashSound<Item(!new)>(ops: Ops<Item>) {
    forall a: seq<Item>, b: seq<Item> :: Hash(ops, a) == Hash(ops, b) ==>
      multiset(Normalized(ops, a)) == multiset(Normalized(ops, b))
  }

  /** The latest rows of every device are those of the last snapshot a store that writes everything would hold. */
  ghost predicate AgreesOn<Item>(ops: Ops<Item>, history: seq<Event<Item>>, key: Key) {
    var snapshots := Snapshots(history, key);
    multiset(LatestOf(Replay(ops, history), key))
      == (if snapshots == [] then multiset{} else multiset(Normalized(ops, Last(snapshots))))
  }

  /** What the query returns, whatever the hash does: the last change point. */
  lemma LatestRows<Item>(ops: Ops<Item>, history: seq<Event<Item>>, key: Key)
    ensures var changes := Collapse(ops, Snapshots(history, key));
      LatestOf(Replay(ops, history), key) == (if changes == [] then [] else Normalized(ops, Last(changes)))
  {
    ReplayIntegrity(ops, history);
    ReplayLatest(ops, history, key);
    LatestOfIsContent(Replay(ops, history), key);
  }

  lemma LatestRowsAreLastSnapshot<Item(!new)>(ops: Ops<Item>, history: seq<Event<Item>>, key: Key)
    requires HashSound(ops)
    ensures AgreesOn(ops, history, key)
  {
    LatestRows(ops, history, key);
    var snapshots := Snapshots(history, key);
    if snapshots != [] { CollapseLast(ops, snapshots); }
  }

  lemma SnapshotsObserve<Item>(history: seq<Event<Item>>, key: Key, items: seq<Item>, at: int)
    ensures Snapshots(history + [Observed(key, items, at)], key) == Snapshots(history, key) + [items]
  {
    assert Front(history + [Observed(key, items, at)]) == history;
  }

  lemma TwoSnapshots<Item>(ops: Ops<Item>, a: seq<Item>, b: seq<Item>, key: Key)
    requires Hash(ops, a) == Hash(ops, b)
    ensures Snapshots([Observed(key, a, 0), Observed(key, b, 1)], key) == [a, b]
    ensures Collapse(ops, [a, b]) == [a]
  {
    SnapshotsObserve([], key, a, 0);
    SnapshotsObserve([Observed(key, a, 0)], key, b, 1);
    assert [] + [Observed(key, a, 0)] == [Observed(key, a, 0)];
    assert [Observed(key, a, 0)] + [Observed(key, b, 1)] == [Observed(key, a, 0), Observed(key, b, 1)];
    CollapseAppend(ops, [a], b);
    CollapseAppend(ops, [], a);
    assert [] + [a] == [a] && [a] + [b] == [a, b];
  }

  /** Two snapshots that collide in the hash but differ in content: the second one is lost. */
  lemma CollisionLosesData<Item>(ops: Ops<Item>, a: seq<Item>, b: seq<Item>, key: Key)
    requires Hash(ops, a) == Hash(ops, b)
    requires multiset(Normalized(ops, a)) != multiset(Normalized(ops, b))
    ensures !AgreesOn(ops, [Observed(key, a, 0), Observed(key, b, 1)], key)
  {
    var history := [Observed(key, a, 0), Observed(key, b, 1)];
    TwoSnapshots(ops, a, b, key);
    LatestRows(ops, history, key);
  }

  /** The store is right on every history exactly when its hash is sound. */
  lemma StoreCorrectIffHashSound<Item(!new)>(ops: Ops<Item>)
    ensures (forall history: seq<Event<Item>>, key :: AgreesOn(ops, history, key)) <==> HashSound(ops)
  {
    if HashSound(ops) {
      forall history: seq<Event<Item>>, key ensures AgreesOn(ops, history, key) {
        LatestRowsAreLastSnapshot(ops, history, key);
      }
    } else {
      var a: seq<Item>, b: seq<Item> :| Hash(ops, a) == Hash(ops, b)
        && multiset(Normalized(ops, a)) != multiset(Normalized(ops, b));
      CollisionLosesData(ops, a, b, Key("", "", ""));
    }
  }

  /** Only rows of devices collected for this maintenance and type are returned. */
  lemma LatestRowsBelong<Item>(ops: Ops<Item>, history: seq<Event<Item>>, maintenance: string, ctype: string,
                               r: Record<Item>)
    requires r in GetLatest(Replay(ops, history), maintenance, ctype)
    ensures r.maintenance == maintenance && Snapshots(history, Key(maintenance, ctype, r.host)) != []
  {
    ReplayIntegrity(ops, history);
    var db := Replay(ops, history);
    var key := Key(maintenance, ctype, r.host);
    FilterMember(db.records, InLatest<Item>(LatestIdsOf(db, maintenance, ctype), maintenance), r);
    var k :| k in db.latest && k.maintenance == maintenance && k.ctype == ctype && db.latest[k].batchId == r.batchId;
    assert PointerOk(db, k);
    BatchOfKey(db, k, Last(BatchesOf(db, k)));
    var b :| b in db.batches && Owns(b, r);
    SameBatch(db, b, Last(BatchesOf(db, k)));
    ReplayLatest(ops, history, key);
  }

  /** An error row exists exactly while the last collection of its key failed, with that failure's message. */
  lemma {:induction false} ErrorIffLastFailed<Item>(ops: Ops<Item>, history: seq<Event<Item>>, key: Key)
    ensures var db := Replay(ops, history);
      match LastFailure(history, key)
      case Some(message) => key in db.errors && db.errors[key] == message
      case None => key !in db.errors
  {
    if history != [] { ErrorIffLastFailed(ops, Front(history), key); }
  }

  function WithoutFailures<Item>(history: seq<Event<Item>>): seq<Event<Item>> {
    Filter(history, (e: Event<Item>) => !e.Failure?)
  }

  /**
   Over every history the failed collections might as well not have happened: apart from the error
   rows the tables are those of the other events alone.
   */
  lemma {:induction false} FailuresNeverTouchData<Item>(ops: Ops<Item>, history: seq<Event<Item>>)
    ensures var db, db' := Replay(ops, history), Replay(ops, WithoutFailures(history)); db == db'.(errors := db.errors)
  {
    if history != [] {
      var front, e := Front(history), Last(history);
      FailuresNeverTouchData(ops, front);
      if !e.Failure? {
        assert WithoutFailures(history) == WithoutFailures(front) + [e];
        assert Front(WithoutFailures(front) + [e]) == WithoutFailures(front);
        StepApart(ops, Replay(ops, front), Replay(ops, WithoutFailures(front)), e);
      } else {
        assert WithoutFailures(history) == WithoutFailures(front) + [] == WithoutFailures(front);
      }
    }
  }

  /** What an event does to the data does not depend on the error rows. */
  lemma StepApart<Item>(ops: Ops<Item>, db: DB<Item>, db': DB<Item>, e: Event<Item>)
    requires db == db'.(errors := db.errors) && !e.Failure?
    ensures Apply(ops, db, e) == Apply(ops, db', e).(errors := Apply(ops, db, e).errors)
  {
  }
}
