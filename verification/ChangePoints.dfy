/**
 The batches the store keeps for a key are its change points; retention only forgets the oldest.
 */
module ChangePoints {
  import opened Seqs
  import opened TypedStore
  import opened StoreIntegrity
  import opened StoreRefinement

  /** Collections are recorded in the order of the clock. */
  ghost predicate Chronological<Item>(history: seq<Event<Item>>) {
    forall i, j :: 0 <= i < j < |history| && history[i].Observed? && history[j].Observed? ==>
      history[i].at <= history[j].at
  }

  ghost predicate NoOldCleaned<Item>(history: seq<Event<Item>>) {
    forall e :: e in history ==> !e.OldCleaned?
  }

  ghost predicate ByTime<Item>(db: DB<Item>) {
    forall i, j :: 0 <= i < j < |db.batches| ==> db.batches[i].collectedAt <= db.batches[j].collectedAt
  }

  ghost predicate TimesFrom<Item>(db: DB<Item>, history: seq<Event<Item>>) {
    forall b :: b in db.batches ==> exists e :: e in history && e.Observed? && e.at == b.collectedAt
  }

  lemma TimesMonotone<Item>(db: DB<Item>, db': DB<Item>, history: seq<Event<Item>>, e: Event<Item>)
    requires TimesFrom(db, history)
    requires forall b :: b in db'.batches ==> b in db.batches || (e.Observed? && b.collectedAt == e.at)
    ensures TimesFrom(db', history + [e])
  {
    forall b | b in db'.batches
      ensures exists x :: x in history + [e] && x.Observed? && x.at == b.collectedAt
    {
      if b in db.batches {
        var x :| x in history && x.Observed? && x.at == b.collectedAt;
        assert x in history + [e];
      } else {
        assert (history + [e])[|history|] == e;
      }
    }
  }

  lemma RetainByTime<Item>(db: DB<Item>, keep: Batch -> bool)
    requires ByTime(db)
    ensures ByTime(Retain(db, keep))
    ensures forall b :: b in Retain(db, keep).batches ==> b in db.batches
  {
    FilterOrdered(db.batches, keep, (a: Batch, b: Batch) => a.collectedAt <= b.collectedAt);
    forall b | b in Retain(db, keep).batches ensures b in db.batches { FilterMember(db.batches, keep, b); }
  }

  lemma AppendByTime<Item>(db: DB<Item>, history: seq<Event<Item>>, e: Event<Item>, b: Batch)
    requires ByTime(db) && TimesFrom(db, history) && Chronological(history + [e])
    requires e.Observed? && b.collectedAt == e.at
    ensures ByTime(db.(batches := db.batches + [b]))
  {
    forall i | 0 <= i < |db.batches| ensures db.batches[i].collectedAt <= e.at {
      var x :| x in history && x.Observed? && x.at == db.batches[i].collectedAt;
      var k :| 0 <= k < |history| && history[k] == x;
      assert (history + [e])[k] == x && (history + [e])[|history|] == e;
    }
  }

  lemma StepByTime<Item>(ops: Ops<Item>, db: DB<Item>, history: seq<Event<Item>>, e: Event<Item>)
    requires ByTime(db) && TimesFrom(db, history) && Chronological(history + [e])
    ensures ByTime(Apply(ops, db, e)) && TimesFrom(Apply(ops, db, e), history + [e])
  {
    var db' := Apply(ops, db, e);
    match e {
      case Observed(key, items, at) =>
        if db'.batches != db.batches {
          AppendByTime(db, history, e, Batch(db.nextId, key, |items|, at));
        }
      case Failure(_, _) =>
      case OldCleaned(cutoff) => RetainByTime(db, Young(LatestIds(db), cutoff));
      case Deactivated(expired) => RetainByTime(db, NotExpired(expired));
    }
    TimesMonotone(db, db', history, e);
  }

  lemma {:induction false} ReplayByTime<Item>(ops: Ops<Item>, history: seq<Event<Item>>)
    requires Chronological(history)
    ensures ByTime(Replay(ops, history)) && TimesFrom(Replay(ops, history), history)
  {
    if history != [] {
      ReplayByTime(ops, Front(history));
      assert history == Front(history) + [Last(history)];
      StepByTime(ops, Replay(ops, Front(history)), Front(history), Last(history));
    }
  }

  // ---- Change points by content ----

  /** Adjacent snapshots with the same items, in whatever order, collapsed to the first of them. */
  ghost function CollapseEqual<Item>(snapshots: seq<seq<Item>>): seq<seq<Item>> {
    if snapshots == [] then []
    else
      var front, last := Front(snapshots), Last(snapshots);
      CollapseEqual(front) + (if front != [] && multiset(Last(front)) == multiset(last) then [] else [last])
  }

  /** Different items under the same hash. */
  predicate Hides<Item(==)>(ops: Ops<Item>, a: seq<Item>, b: seq<Item>) {
    Hash(ops, a) == Hash(ops, b) && multiset(a) != multiset(b)
  }

  ghost predicate HashInjective<Item(!new)>(ops: Ops<Item>) {
    forall a: seq<Item>, b: seq<Item> :: !Hides(ops, a, b)
  }

  /** No snapshot hides behind the hash of the one before. */
  ghost predicate NothingHidden<Item>(ops: Ops<Item>, snapshots: seq<seq<Item>>) {
    forall i :: 0 <= i < |snapshots| - 1 ==> !Hides(ops, snapshots[i], snapshots[i + 1])
  }

  lemma NothingHiddenNext<Item>(ops: Ops<Item>, front: seq<seq<Item>>, last: seq<Item>)
    ensures NothingHidden(ops, front + [last]) <==>
      NothingHidden(ops, front) && (front != [] ==> !Hides(ops, Last(front), last))
  {
    var snapshots := front + [last];
    if NothingHidden(ops, snapshots) {
      forall i | 0 <= i < |front| - 1 ensures !Hides(ops, front[i], front[i + 1]) {
        assert !Hides(ops, snapshots[i], snapshots[i + 1]);
      }
      if front != [] {
        var n := |front| - 1;
        assert !Hides(ops, snapshots[n], snapshots[n + 1]);
      }
    }
  }

  lemma {:induction false} CollapseCounts<Item>(ops: Ops<Item>, snapshots: seq<seq<Item>>)
    ensures |Collapse(ops, snapshots)| <= |CollapseEqual(snapshots)|
    ensures NothingHidden(ops, snapshots) ==> Collapse(ops, snapshots) == CollapseEqual(snapshots)
    ensures !NothingHidden(ops, snapshots) ==> |Collapse(ops, snapshots)| < |CollapseEqual(snapshots)|
  {
    if snapshots != [] {
      assert snapshots == Front(snapshots) + [Last(snapshots)];
      NothingHiddenNext(ops, Front(snapshots), Last(snapshots));
      CollapseCounts(ops, Front(snapshots));
    }
  }

  /**
   The change points are exactly the snapshots whose items differ from the one before, if and only if
   no two adjacent snapshots collide in the hash; for all snapshots, if and only if none ever do.
   */
  lemma CollapseIsByContent<Item(!new)>(ops: Ops<Item>)
    ensures forall snapshots: seq<seq<Item>> ::
      Collapse(ops, snapshots) == CollapseEqual(snapshots) <==> NothingHidden(ops, snapshots)
    ensures (forall snapshots: seq<seq<Item>> :: Collapse(ops, snapshots) == CollapseEqual(snapshots)) <==>
      HashInjective(ops)
  {
    forall snapshots: seq<seq<Item>>
      ensures Collapse(ops, snapshots) == CollapseEqual(snapshots) <==> NothingHidden(ops, snapshots)
    {
      CollapseCounts(ops, snapshots);
    }
    if !HashInjective(ops) {
      var a: seq<Item>, b: seq<Item> :| Hides(ops, a, b);
      NothingHiddenNext(ops, [a], b);
      assert [a] + [b] == [a, b];
    }
  }

  // ---- The kept batches ----

  /** Counted from the newest. */
  function FromEnd<T>(s: seq<T>, back: nat): T
    requires back < |s|
  {
    s[|s| - 1 - back]
  }

  /** The batches hold the newest of the change points, in order. */
  ghost predicate Aligned<Item>(ops: Ops<Item>, db: DB<Item>, own: seq<Batch>, changes: seq<seq<Item>>) {
    && |own| <= |changes|
    && forall back: nat :: back < |own| ==> Content(db, FromEnd(own, back)) == Normalized(ops, FromEnd(changes, back))
  }

  ghost predicate KeptChanges<Item>(ops: Ops<Item>, db: DB<Item>, key: Key, snapshots: seq<seq<Item>>) {
    Aligned(ops, db, BatchesOf(db, key), Collapse(ops, snapshots))
  }

  /** Without retention of old batches no change point is ever dropped. */
  ghost predicate AllKept<Item>(ops: Ops<Item>, db: DB<Item>, key: Key, snapshots: seq<seq<Item>>) {
    |BatchesOf(db, key)| == |Collapse(ops, snapshots)|
  }

  lemma AlignedSame<Item>(ops: Ops<Item>, db: DB<Item>, db': DB<Item>, own: seq<Batch>, changes: seq<seq<Item>>)
    requires Aligned(ops, db, own, changes)
    requires forall b :: b in own ==> Content(db', b) == Content(db, b)
    ensures Aligned(ops, db', own, changes)
  {
    forall back: nat | back < |own|
      ensures Content(db', FromEnd(own, back)) == Normalized(ops, FromEnd(changes, back))
    {
      assert FromEnd(own, back) in own;
    }
  }

  lemma AlignedAppend<Item>(ops: Ops<Item>, db: DB<Item>, own: seq<Batch>, changes: seq<seq<Item>>, b: Batch,
                            items: seq<Item>)
    requires Aligned(ops, db, own, changes) && Content(db, b) == Normalized(ops, items)
    ensures Aligned(ops, db, own + [b], changes + [items])
  {
    forall back: nat | back < |own| + 1
      ensures Content(db, FromEnd(own + [b], back)) == Normalized(ops, FromEnd(changes + [items], back))
    {
      if back > 0 {
        assert FromEnd(own + [b], back) == FromEnd(own, back - 1);
        assert FromEnd(changes + [items], back) == FromEnd(changes, back - 1);
      }
    }
  }

  lemma AlignedDrop<Item>(ops: Ops<Item>, db: DB<Item>, own: seq<Batch>, changes: seq<seq<Item>>, n: nat)
    requires Aligned(ops, db, own, changes) && n <= |own|
    ensures Aligned(ops, db, own[n..], changes)
  {
    forall back: nat | back < |own| - n
      ensures Content(db, FromEnd(own[n..], back)) == Normalized(ops, FromEnd(changes, back))
    {
      assert FromEnd(own[n..], back) == FromEnd(own, back);
    }
  }

  lemma GrownAligned<Item>(ops: Ops<Item>, db: DB<Item>, key: Key, items: seq<Item>, now: int, k: Key,
                           changes: seq<seq<Item>>)
    requires Integrity(db) && Aligned(ops, db, BatchesOf(db, k), changes)
    ensures var db' := Grown(ops, db, key, items, now);
      && |BatchesOf(db', k)| == |BatchesOf(db, k)| + (if k == key then 1 else 0)
      && Aligned(ops, db', BatchesOf(db', k), if k == key then changes + [items] else changes)
  {
    var db' := Grown(ops, db, key, items, now);
    var own := BatchesOf(db, k);
    GrownBatches(ops, db, key, items, now, k);
    forall b | b in own ensures Content(db', b) == Content(db, b) {
      BatchOfKey(db, k, b);
      GrownContent(ops, db, key, items, now, b);
    }
    AlignedSame(ops, db, db', own, changes);
    if k == key {
      var b := Batch(db.nextId, key, |items|, now);
      GrownContent(ops, db, key, items, now, b);
      AlignedAppend(ops, db', own, changes, b, items);
    }
  }

  lemma SaveChanges<Item>(ops: Ops<Item>, db: DB<Item>, key: Key, items: seq<Item>, now: int, k: Key,
                          snapshots: seq<seq<Item>>)
    requires Integrity(db) && PointerMatches(ops, db, k, snapshots) && KeptChanges(ops, db, k, snapshots)
    ensures var db' := Save(ops, db, key, items, now);
      var snapshots' := if k == key then snapshots + [items] else snapshots;
      && KeptChanges(ops, db', k, snapshots')
      && (AllKept(ops, db, k, snapshots) ==> AllKept(ops, db', k, snapshots'))
  {
    if k == key { CollapseAppend(ops, snapshots, items); }
    if key in db.latest && db.latest[key].dataHash == Hash(ops, items) {
      AlignedSame(ops, db, Save(ops, db, key, items, now), BatchesOf(db, k), Collapse(ops, snapshots));
    } else {
      GrownAligned(ops, db, key, items, now, k, Collapse(ops, snapshots));
    }
  }

  /** What retention protects: among the batches of a key only the newest is in use. */
  lemma OnlyNewestInUse<Item>(db: DB<Item>, key: Key, i: nat)
    requires Integrity(db) && i < |BatchesOf(db, key)|
    requires BatchesOf(db, key)[i].id in LatestIds(db)
    ensures i == |BatchesOf(db, key)| - 1
  {
    var own := BatchesOf(db, key);
    var k :| k in db.latest && db.latest[k].batchId == own[i].id;
    assert PointerOk(db, k);
    BatchOfKey(db, k, Last(BatchesOf(db, k)));
    BatchOfKey(db, key, own[i]);
    SameBatch(db, own[i], Last(BatchesOf(db, k)));
    FilterOrdered(db.batches, OfKey(key), (a: Batch, b: Batch) => a.id < b.id);
  }

  /** Among the batches of a key, retention protects one only together with all newer ones. */
  lemma YoungFromSomePoint<Item>(db: DB<Item>, cutoff: int, key: Key, i: nat, j: nat)
    requires Integrity(db) && ByTime(db) && i <= j < |BatchesOf(db, key)|
    ensures var keep, own := Young(LatestIds(db), cutoff), BatchesOf(db, key);
      (keep(own[i]) ==> keep(own[j])) && keep(Last(own))
  {
    var own := BatchesOf(db, key);
    FilterOrdered(db.batches, OfKey(key), (a: Batch, b: Batch) => a.collectedAt <= b.collectedAt);
    assert i < j ==> own[i].collectedAt <= own[j].collectedAt;
    if own[i].id in LatestIds(db) { OnlyNewestInUse(db, key, i); }
    assert PointerOk(db, key);
  }

  lemma CleanedChanges<Item>(ops: Ops<Item>, db: DB<Item>, cutoff: int, key: Key, snapshots: seq<seq<Item>>)
    requires Integrity(db) && ByTime(db) && KeptChanges(ops, db, key, snapshots)
    ensures KeptChanges(ops, CleanupOld(db, cutoff), key, snapshots)
  {
    var keep := Young(LatestIds(db), cutoff);
    var own := BatchesOf(db, key);
    forall i, j | 0 <= i < j < |own| && keep(own[i]) ensures keep(own[j]) { YoungFromSomePoint(db, cutoff, key, i, j); }
    var n := FilterSuffix(own, keep);
    RetainBatches(db, keep, key);
    AlignedDrop(ops, db, own, Collapse(ops, snapshots), n);
    forall b | b in own[n..] ensures Content(CleanupOld(db, cutoff), b) == Content(db, b) {
      FilterMember(own, keep, b);
      BatchOfKey(db, key, b);
      RetainContent(db, keep, b);
    }
    AlignedSame(ops, db, CleanupOld(db, cutoff), own[n..], Collapse(ops, snapshots));
  }

  lemma WipedChanges<Item>(ops: Ops<Item>, db: DB<Item>, expired: set<string>, key: Key, snapshots: seq<seq<Item>>)
    requires Integrity(db) && KeptChanges(ops, db, key, snapshots)
    ensures KeptChanges(ops, CleanupDeactivated(db, expired), key, if key.maintenance in expired then [] else snapshots)
    ensures |BatchesOf(CleanupDeactivated(db, expired), key)|
      == if key.maintenance in expired then 0 else |BatchesOf(db, key)|
  {
    var db' := CleanupDeactivated(db, expired);
    CleanupDeactivatedIntegrity(db, expired);
    assert WipedBatches(db, expired, key);
    if key.maintenance !in expired {
      forall b | b in BatchesOf(db, key) ensures Content(db', b) == Content(db, b) {
        BatchOfKey(db, key, b);
        RetainContent(db, NotExpired(expired), b);
        assert Content(db', b) == Content(Retain(db, NotExpired(expired)), b);
      }
      AlignedSame(ops, db, db', BatchesOf(db, key), Collapse(ops, snapshots));
    }
  }

  lemma StepChanges<Item>(ops: Ops<Item>, db: DB<Item>, e: Event<Item>, key: Key, snapshots: seq<seq<Item>>)
    requires Integrity(db) && ByTime(db) && PointerMatches(ops, db, key, snapshots)
      && KeptChanges(ops, db, key, snapshots)
    ensures KeptChanges(ops, Apply(ops, db, e), key, After(snapshots, e, key))
    ensures AllKept(ops, db, key, snapshots) && !e.OldCleaned? ==>
      AllKept(ops, Apply(ops, db, e), key, After(snapshots, e, key))
  {
    match e
    case Observed(k, items, at) =>
      SaveChanges(ops, db, k, items, at, key, snapshots);
      AlignedSame(ops, Save(ops, db, k, items, at), Apply(ops, db, e), BatchesOf(Apply(ops, db, e), key),
        Collapse(ops, After(snapshots, e, key)));
    case Failure(k, message) => AlignedSame(ops, db, Apply(ops, db, e), BatchesOf(db, key), Collapse(ops, snapshots));
    case OldCleaned(cutoff) => CleanedChanges(ops, db, cutoff, key, snapshots);
    case Deactivated(expired) => WipedChanges(ops, db, expired, key, snapshots);
  }

  /**
   Over every chronological history the stored batches of a key are the newest of its change
   points, in order; without retention they are all of them.
   */
  lemma {:induction false} StoredBatchesAreChangePoints<Item>(ops: Ops<Item>, history: seq<Event<Item>>, key: Key)
    requires Chronological(history)
    ensures KeptChanges(ops, Replay(ops, history), key, Snapshots(history, key))
    ensures NoOldCleaned(history) ==> AllKept(ops, Replay(ops, history), key, Snapshots(history, key))
  {
    if history != [] {
      var front, e := Front(history), Last(history);
      assert history == front + [e];
      StoredBatchesAreChangePoints(ops, front, key);
      ReplayIntegrity(ops, front);
      ReplayByTime(ops, front);
      ReplayLatest(ops, front, key);
      StepChanges(ops, Replay(ops, front), e, key, Snapshots(front, key));
    }
  }

  /** Over every chronological history, a stored batch is the change point equally far from the newest. */
  lemma NthNewest<Item>(ops: Ops<Item>, history: seq<Event<Item>>, key: Key, back: nat)
    requires Chronological(history) && back < |BatchesOf(Replay(ops, history), key)|
    ensures var db, changes := Replay(ops, history), Collapse(ops, Snapshots(history, key));
      back < |changes| && Content(db, FromEnd(BatchesOf(db, key), back)) == Normalized(ops, FromEnd(changes, back))
  {
    StoredBatchesAreChangePoints(ops, history, key);
  }

  /**
   After every chronological history a clean-up removes the oldest change points of a key first, and
   never the newest: a stored one stays whenever an older one does.
   */
  lemma OldestGoFirst<Item>(ops: Ops<Item>, history: seq<Event<Item>>, cutoff: int, key: Key, i: nat, j: nat)
    requires Chronological(history) && i <= j < |BatchesOf(Replay(ops, history), key)|
    ensures var own := BatchesOf(Replay(ops, history), key);
      var left := BatchesOf(CleanupOld(Replay(ops, history), cutoff), key);
      (own[i] in left ==> own[j] in left) && Last(own) in left
  {
    var db := Replay(ops, history);
    var keep, own := Young(LatestIds(db), cutoff), BatchesOf(db, key);
    ReplayIntegrity(ops, history);
    ReplayByTime(ops, history);
    YoungFromSomePoint(db, cutoff, key, i, j);
    RetainBatches(db, keep, key);
    FilterMember(own, keep, own[i]);
    FilterMember(own, keep, own[j]);
    FilterMember(own, keep, Last(own));
  }
}
