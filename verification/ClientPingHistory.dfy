/**
 The client-ping writer over whole histories: one batch per key, and its rows say of every target
 what the last snapshot that mentioned it said, exactly as long as no snapshot contradicts itself and
 the hash tells apart snapshots that say different things.
 */
module ClientPingHistory {
  import opened Wrappers
  import opened Seqs
  import opened TypedStore
  import opened StoreIntegrity
  import opened StoreRefinement
  import opened ClientPing

  function ApplyPing(ops: Ops<Ping>, db: DB<Ping>, e: Event<Ping>): DB<Ping> {
    match e
    case Observed(key, items, at) => SavePing(ops, db, key, items, at).(errors := db.errors - {key})
    case _ => Apply(ops, db, e)
  }

  function ReplayPing(ops: Ops<Ping>, history: seq<Event<Ping>>): DB<Ping> {
    if history == [] then Empty() else ApplyPing(ops, ReplayPing(ops, Front(history)), Last(history))
  }

  // ---- Integrity of in-place updates ----

  lemma {:induction false} MergedKeys(existing: map<string, nat>, records: seq<Record<Ping>>, key: Key, id: nat,
                                      now: int, items: seq<Ping>, r: Record<Ping>)
    requires Indexes(existing, records, id) && r in Merged(existing, records, key, id, now, items)
    ensures (r.batchId == id && r.maintenance == key.maintenance && r.host == key.host)
      || exists q :: q in records && q.batchId == r.batchId && q.maintenance == r.maintenance && q.host == r.host
  {
    if items != [] {
      var before := Merged(existing, records, key, id, now, Front(items));
      if r in before {
        MergedKeys(existing, records, key, id, now, Front(items), r);
      } else if Last(items).target in existing {
        MergedKeys(existing, records, key, id, now, Front(items), before[existing[Last(items).target]]);
      }
    }
  }

  lemma TouchedBatches(db: DB<Ping>, db': DB<Ping>, id: nat, count: nat, now: int, k: Key)
    requires db'.batches == Map(db.batches, Touched(id, count, now))
    ensures BatchesOf(db', k) == Map(BatchesOf(db, k), Touched(id, count, now))
  {
    FilterMap(db.batches, OfKey(k), Touched(id, count, now));
  }

  lemma OwnerOf(db: DB<Ping>, key: Key, r: Record<Ping>) returns (b: Batch)
    requires Integrity(db) && key in db.latest
    requires (r.batchId == db.latest[key].batchId && r.maintenance == key.maintenance && r.host == key.host)
      || exists q :: q in db.records && q.batchId == r.batchId && q.maintenance == r.maintenance && q.host == r.host
    ensures b in db.batches && Owns(b, r)
  {
    if q :| q in db.records && q.batchId == r.batchId && q.maintenance == r.maintenance && q.host == r.host {
      b :| b in db.batches && Owns(b, q);
    } else {
      assert PointerOk(db, key);
      b := Last(BatchesOf(db, key));
      BatchOfKey(db, key, b);
    }
  }

  lemma UpdateRecordKeys(ops: Ops<Ping>, db: DB<Ping>, key: Key, items: seq<Ping>, now: int)
    requires Integrity(db) && key in db.latest
    ensures RecordKeys(UpdateInPlace(ops, db, key, items, now))
  {
    var db' := UpdateInPlace(ops, db, key, items, now);
    var id := db.latest[key].batchId;
    var touched := Touched(id, |items|, now);
    ExistingIndexes(db.records, id);
    forall r | r in db'.records ensures exists b :: b in db'.batches && Owns(b, r) {
      MergedKeys(Existing(db.records, id), db.records, key, id, now, items, r);
      var b := OwnerOf(db, key, r);
      var i :| 0 <= i < |db.batches| && db.batches[i] == b;
      assert db'.batches[i] == touched(b) && Owns(touched(b), r);
    }
  }

  lemma UpdateIntegrity(ops: Ops<Ping>, db: DB<Ping>, key: Key, items: seq<Ping>, now: int)
    requires Integrity(db) && key in db.latest
    ensures Integrity(UpdateInPlace(ops, db, key, items, now))
  {
    UpdateRecordKeys(ops, db, key, items, now);
    var db' := UpdateInPlace(ops, db, key, items, now);
    forall k ensures PointerOk(db', k) {
      assert PointerOk(db, k);
      TouchedBatches(db, db', db.latest[key].batchId, |items|, now, k);
    }
  }

  lemma SavePingIntegrity(ops: Ops<Ping>, db: DB<Ping>, key: Key, items: seq<Ping>, now: int)
    requires Integrity(db)
    ensures Integrity(SavePing(ops, db, key, items, now))
  {
    if key !in db.latest || db.latest[key].dataHash == Hash(ops, items) {
      assert SavePing(ops, db, key, items, now) == Save(ops, db, key, items, now);
      SaveIntegrity(ops, db, key, items, now);
    } else {
      UpdateIntegrity(ops, db, key, items, now);
    }
  }

  lemma {:induction false} ReplayPingIntegrity(ops: Ops<Ping>, history: seq<Event<Ping>>)
    ensures Integrity(ReplayPing(ops, history))
  {
    if history == [] {
      forall k ensures PointerOk(Empty<Ping>(), k) {}
    } else {
      var db := ReplayPing(ops, Front(history));
      ReplayPingIntegrity(ops, Front(history));
      match Last(history)
      case Observed(key, items, at) =>
        SavePingIntegrity(ops, db, key, items, at);
        ErrorsApart(SavePing(ops, db, key, items, at), db.errors - {key});
      case _ => ApplyIntegrity(ops, db, Last(history));
    }
  }

  // ---- One batch per key ----

  ghost predicate OneBatch(db: DB<Ping>, key: Key) {
    |BatchesOf(db, key)| == if key in db.latest then 1 else 0
  }

  lemma StepKeepsOneBatch(ops: Ops<Ping>, db: DB<Ping>, e: Event<Ping>, key: Key)
    requires Integrity(db) && OneBatch(db, key)
    ensures OneBatch(ApplyPing(ops, db, e), key)
  {
    match e
    case Observed(k, items, at) =>
      if k !in db.latest {
        GrownBatches(ops, db, k, items, at, key);
      } else if db.latest[k].dataHash != Hash(ops, items) {
        TouchedBatches(db, ApplyPing(ops, db, e), db.latest[k].batchId, |items|, at, key);
      }
    case Failure(_, _) =>
    case OldCleaned(cutoff) =>
      CleanupOldIntegrity(db, cutoff);
      assert PointerOk(CleanupOld(db, cutoff), key);
      RetainBatches(db, Young(LatestIds(db), cutoff), key);
      FilterShorter(BatchesOf(db, key), Young(LatestIds(db), cutoff));
    case Deactivated(expired) =>
      CleanupDeactivatedIntegrity(db, expired);
      assert WipedBatches(db, expired, key);
  }

  /** However many snapshots were written, a key with data has one batch and a key without has none. */
  lemma {:induction false} OneBatchPerKey(ops: Ops<Ping>, history: seq<Event<Ping>>, key: Key)
    ensures OneBatch(ReplayPing(ops, history), key)
  {
    if history != [] {
      ReplayPingIntegrity(ops, Front(history));
      OneBatchPerKey(ops, Front(history), key);
      StepKeepsOneBatch(ops, ReplayPing(ops, Front(history)), Last(history), key);
    }
  }

  // ---- The view is the fold ----

  lemma ViewIsContent(db: DB<Ping>, key: Key)
    requires Integrity(db) && key in db.latest
    ensures BatchesOf(db, key) != [] && Last(BatchesOf(db, key)) in db.batches
    ensures Last(BatchesOf(db, key)).id == db.latest[key].batchId
    ensures View(db, key) == PingMap(Content(db, Last(BatchesOf(db, key))))
  {
    assert PointerOk(db, key);
    BatchOfKey(db, key, Last(BatchesOf(db, key)));
  }

  lemma PointersDiffer(db: DB<Ping>, a: Key, b: Key)
    requires Integrity(db) && a in db.latest && b in db.latest && a != b
    ensures db.latest[a].batchId != db.latest[b].batchId
  {
    ViewIsContent(db, a);
    ViewIsContent(db, b);
    var x, y := Last(BatchesOf(db, a)), Last(BatchesOf(db, b));
    BatchOfKey(db, a, x);
    BatchOfKey(db, b, y);
    if x.id == y.id { SameBatch(db, x, y); }
  }

  lemma GrownView(hash: multiset<Ping> -> string, db: DB<Ping>, key: Key, items: seq<Ping>, now: int, k: Key)
    requires Integrity(db) && key !in db.latest
    ensures View(Grown(PingOps(hash), db, key, items, now), k) == if k == key then PingMap(items) else View(db, k)
  {
    var ops := PingOps(hash);
    if k == key {
      GrownContent(ops, db, key, items, now, Batch(db.nextId, key, |items|, now));
      assert Normalized(ops, items) == items;
    } else if k in db.latest {
      ViewIsContent(db, k);
      GrownContent(ops, db, key, items, now, Last(BatchesOf(db, k)));
    }
  }

  /** With distinct values per target the order of the rows does not matter. */
  lemma {:induction false} FunctionalMap(items: seq<Ping>, target: string, value: bool)
    requires Functional(items)
    ensures Get(PingMap(items), target) == Some(value) <==> Ping(target, value) in items
  {
    if items != [] {
      var front, last := Front(items), Last(items);
      FunctionalMap(front, target, value);
      assert items == front + [last];
      if target == last.target && Ping(target, value) in items {
        var i :| 0 <= i < |items| && items[i] == Ping(target, value);
        assert items[|items| - 1].reachable == value;
      }
    }
  }

  lemma SameSnapshotSameMap(a: seq<Ping>, b: seq<Ping>)
    requires Functional(a) && Functional(b) && multiset(a) == multiset(b)
    ensures PingMap(a) == PingMap(b)
  {
    forall t ensures Get(PingMap(a), t) == Get(PingMap(b), t) {
      SameTarget(a, b, t, true);
      SameTarget(a, b, t, false);
      SameOption(Get(PingMap(a), t), Get(PingMap(b), t));
    }
    SameMap(PingMap(a), PingMap(b));
  }

  lemma SameOption(x: Option<bool>, y: Option<bool>)
    requires (x == Some(true) <==> y == Some(true)) && (x == Some(false) <==> y == Some(false))
    ensures x == y
  {
    if x.Some? {
      assert x.value || !x.value;
    } else if y.Some? {
      assert y.value || !y.value;
    }
  }

  lemma SameTarget(a: seq<Ping>, b: seq<Ping>, target: string, value: bool)
    requires Functional(a) && Functional(b) && multiset(a) == multiset(b)
    ensures Get(PingMap(a), target) == Some(value) <==> Get(PingMap(b), target) == Some(value)
  {
    FunctionalMap(a, target, value);
    FunctionalMap(b, target, value);
    assert Ping(target, value) in a <==> Ping(target, value) in multiset(a);
    assert Ping(target, value) in b <==> Ping(target, value) in multiset(b);
  }

  ghost predicate AllFunctional(snapshots: seq<seq<Ping>>) {
    forall s :: s in snapshots ==> Functional(s)
  }

  /** Snapshots that do not contradict themselves and have the same hash say the same of every target. */
  ghost predicate MapSound(hash: multiset<Ping> -> string) {
    forall a, b :: Functional(a) && Functional(b) && hash(multiset(a)) == hash(multiset(b)) ==> PingMap(a) == PingMap(b)
  }

  /** What is kept of a key along a history. */
  ghost predicate Matches(ops: Ops<Ping>, db: DB<Ping>, key: Key, snapshots: seq<seq<Ping>>) {
    PointerMatches(ops, db, key, snapshots) && View(db, key) == Fold(snapshots)
  }

  lemma FoldAppend(snapshots: seq<seq<Ping>>, items: seq<Ping>)
    ensures Fold(snapshots + [items]) == Fold(snapshots) + PingMap(items)
  {
    assert Front(snapshots + [items]) == snapshots;
  }

  lemma SavePingMatches(hash: multiset<Ping> -> string, db: DB<Ping>, key: Key, items: seq<Ping>, now: int,
                        k: Key, snapshots: seq<seq<Ping>>)
    requires Integrity(db) && MapSound(hash) && Matches(PingOps(hash), db, k, snapshots)
    requires k == key ==> AllFunctional(snapshots) && Functional(items)
    ensures Matches(PingOps(hash), SavePing(PingOps(hash), db, key, items, now), k,
                    if k == key then snapshots + [items] else snapshots)
  {
    var ops := PingOps(hash);
    FoldAppend(snapshots, items);
    if key !in db.latest {
      GrownView(hash, db, key, items, now, k);
    } else if db.latest[key].dataHash == Hash(ops, items) {
      if k == key {
        assert Functional(Last(snapshots)) && PingMap(Last(snapshots)) == PingMap(items);
      }
    } else {
      if k in db.latest && k != key { PointersDiffer(db, k, key); }
      UpdateView(ops, db, key, items, now, k);
    }
  }

  lemma RetainView(db: DB<Ping>, keep: Batch -> bool, key: Key)
    requires Integrity(db) && key in db.latest && BatchesOf(db, key) != []
    requires keep(Last(BatchesOf(db, key)))
    ensures View(Retain(db, keep), key) == View(db, key)
  {
    ViewIsContent(db, key);
    RetainContent(db, keep, Last(BatchesOf(db, key)));
  }

  lemma CleanedMatches(ops: Ops<Ping>, db: DB<Ping>, cutoff: int, key: Key, snapshots: seq<seq<Ping>>)
    requires Integrity(db) && Matches(ops, db, key, snapshots)
    ensures Matches(ops, CleanupOld(db, cutoff), key, snapshots)
  {
    if key in db.latest {
      ViewIsContent(db, key);
      RetainView(db, Young(LatestIds(db), cutoff), key);
    }
  }

  lemma WipedMatches(ops: Ops<Ping>, db: DB<Ping>, expired: set<string>, key: Key, snapshots: seq<seq<Ping>>)
    requires Integrity(db) && Matches(ops, db, key, snapshots)
    ensures Matches(ops, CleanupDeactivated(db, expired), key, if key.maintenance in expired then [] else snapshots)
  {
    var db' := CleanupDeactivated(db, expired);
    if key in db.latest && key.maintenance !in expired {
      ViewIsContent(db, key);
      BatchOfKey(db, key, Last(BatchesOf(db, key)));
      RetainView(db, NotExpired(expired), key);
      assert View(db', key) == View(Retain(db, NotExpired(expired)), key);
    }
  }

  ghost predicate Consistent(history: seq<Event<Ping>>, key: Key) {
    forall e :: e in history && e.Observed? && e.key == key ==> Functional(e.items)
  }

  lemma {:induction false} ReplayMatches(hash: multiset<Ping> -> string, history: seq<Event<Ping>>, key: Key)
    requires MapSound(hash) && Consistent(history, key)
    ensures Matches(PingOps(hash), ReplayPing(PingOps(hash), history), key, Snapshots(history, key))
    ensures AllFunctional(Snapshots(history, key))
  {
    var ops := PingOps(hash);
    if history != [] {
      var front, e := Front(history), Last(history);
      assert history == front + [e];
      ReplayMatches(hash, front, key);
      ReplayPingIntegrity(ops, front);
      var db, snapshots := ReplayPing(ops, front), Snapshots(front, key);
      match e
      case Observed(k, items, at) => SavePingMatches(hash, db, k, items, at, key, snapshots);
      case Failure(_, _) =>
      case OldCleaned(cutoff) => CleanedMatches(ops, db, cutoff, key, snapshots);
      case Deactivated(expired) => WipedMatches(ops, db, expired, key, snapshots);
    }
  }

  // ---- The condition is exact ----

  function Twice(key: Key, a: seq<Ping>, b: seq<Ping>): seq<Event<Ping>> {
    [Observed(key, a, 0), Observed(key, b, 1)]
  }

  ghost predicate ReadsAsFold(hash: multiset<Ping> -> string, key: Key, a: seq<Ping>, b: seq<Ping>) {
    View(ReplayPing(PingOps(hash), Twice(key, a, b)), key) == Fold([a, b])
  }

  lemma FirstView(hash: multiset<Ping> -> string, key: Key, a: seq<Ping>)
    ensures var db := ReplayPing(PingOps(hash), [Observed(key, a, 0)]);
      key in db.latest && db.latest[key].dataHash == hash(multiset(a)) && View(db, key) == PingMap(a)
  {
    assert Front([Observed(key, a, 0)]) == [];
    ReplayPingIntegrity(PingOps(hash), []);
    GrownView(hash, Empty(), key, a, 0, key);
  }

  lemma FoldTwo(a: seq<Ping>, b: seq<Ping>)
    ensures Fold([a, b]) == PingMap(a) + PingMap(b)
  {
    FoldAppend([], a);
    FoldAppend([a], b);
    assert [] + [a] == [a] && [a] + [b] == [a, b];
  }

  /** The second of two snapshots with the same hash is skipped. */
  lemma SkippedView(hash: multiset<Ping> -> string, key: Key, a: seq<Ping>, b: seq<Ping>)
    requires hash(multiset(a)) == hash(multiset(b))
    ensures View(ReplayPing(PingOps(hash), Twice(key, a, b)), key) == PingMap(a)
  {
    assert Front(Twice(key, a, b)) == [Observed(key, a, 0)];
    FirstView(hash, key, a);
  }

  /** The stored rows of the key read as the fold of all its snapshots. */
  ghost predicate ReadsRight(hash: multiset<Ping> -> string, history: seq<Event<Ping>>, key: Key) {
    View(ReplayPing(PingOps(hash), history), key) == Fold(Snapshots(history, key))
  }

  lemma TwiceSnapshots(key: Key, a: seq<Ping>, b: seq<Ping>)
    ensures Snapshots(Twice(key, a, b), key) == [a, b]
  {
    SnapshotsObserve([], key, a, 0);
    SnapshotsObserve([Observed(key, a, 0)], key, b, 1);
    assert [] + [Observed(key, a, 0)] == [Observed(key, a, 0)];
    assert [Observed(key, a, 0)] + [Observed(key, b, 1)] == Twice(key, a, b);
  }

  lemma OverridesBothWays(x: map<string, bool>, y: map<string, bool>)
    requires x + y == x && y + x == y
    ensures x == y
  {
    assert forall t :: t in x + y <==> t in x || t in y;
    assert forall t :: t in y + x <==> t in x || t in y;
    assert forall t :: t in y ==> (x + y)[t] == y[t];
  }

  /** Of two snapshots that say different things under the same hash, one after the other is not seen. */
  lemma UnseenSnapshot(hash: multiset<Ping> -> string, key: Key, a: seq<Ping>, b: seq<Ping>)
    requires hash(multiset(a)) == hash(multiset(b)) && PingMap(a) != PingMap(b)
    ensures !ReadsRight(hash, Twice(key, a, b), key) || !ReadsRight(hash, Twice(key, b, a), key)
  {
    TwiceSnapshots(key, a, b);
    TwiceSnapshots(key, b, a);
    SkippedView(hash, key, a, b);
    SkippedView(hash, key, b, a);
    FoldTwo(a, b);
    FoldTwo(b, a);
    if PingMap(a) + PingMap(b) == PingMap(a) && PingMap(b) + PingMap(a) == PingMap(b) {
      OverridesBothWays(PingMap(a), PingMap(b));
    }
  }

  /**
   The stored rows of a key read as the fold of all its snapshots, hash-skipped ones included, over
   every history without a self-contradicting snapshot, exactly if the hash tells apart snapshots that
   say different things.
   */
  lemma ViewIsFold(hash: multiset<Ping> -> string)
    ensures MapSound(hash) <==>
      forall history, key :: Consistent(history, key) ==> ReadsRight(hash, history, key)
  {
    if MapSound(hash) {
      forall history, key | Consistent(history, key) ensures ReadsRight(hash, history, key) {
        ReplayMatches(hash, history, key);
      }
    } else {
      var a, b :| Functional(a) && Functional(b) && hash(multiset(a)) == hash(multiset(b)) && PingMap(a) != PingMap(b);
      var key := Key("", "", "");
      assert Consistent(Twice(key, a, b), key) && Consistent(Twice(key, b, a), key);
      UnseenSnapshot(hash, key, a, b);
    }
  }

  lemma {:induction false} LastRowWins(items: seq<Ping>, k: nat)
    requires k < |items| && forall j :: k < j < |items| ==> items[j].target != items[k].target
    ensures Get(PingMap(items), items[k].target) == Some(items[k].reachable)
  {
    if k < |items| - 1 { LastRowWins(Front(items), k); }
  }

  lemma {:induction false} LastOf(items: seq<Ping>, i: nat) returns (k: nat)
    requires i < |items|
    ensures i <= k < |items| && items[k].target == items[i].target
    ensures forall j :: k < j < |items| ==> items[j].target != items[k].target
    decreases |items| - i
  {
    if j :| i < j < |items| && items[j].target == items[i].target {
      k := LastOf(items, j);
    } else {
      k := i;
    }
  }

  lemma SwapKeepsRows(items: seq<Ping>, i: nat, k: nat)
    requires i < |items| && k < |items|
    ensures multiset(items[i := items[k]][k := items[i]]) == multiset(items)
  {
  }

  /** A snapshot that says two things of one target reads differently when its rows come in another order. */
  lemma ContradictionBreaksFold(hash: multiset<Ping> -> string, key: Key, items: seq<Ping>)
    returns (reordered: seq<Ping>)
    requires !Functional(items)
    ensures multiset(reordered) == multiset(items)
    ensures !ReadsAsFold(hash, key, items, reordered)
  {
    var i, j :| 0 <= i < j < |items| && items[i].target == items[j].target && items[i].reachable != items[j].reachable;
    var k := LastOf(items, i);
    if items[i].reachable == items[k].reachable { i := j; }
    reordered := items[i := items[k]][k := items[i]];
    SwapKeepsRows(items, i, k);
    LastRowWins(items, k);
    LastRowWins(reordered, k);
    SkippedView(hash, key, items, reordered);
    FoldTwo(items, reordered);
  }

  /** The fold law holds for a snapshot and all its reorderings exactly when it does not contradict itself. */
  lemma FoldIffFunctional(hash: multiset<Ping> -> string, key: Key, items: seq<Ping>)
    ensures Functional(items) <==>
      forall reordered :: multiset(reordered) == multiset(items) ==> ReadsAsFold(hash, key, items, reordered)
  {
    if Functional(items) {
      forall reordered | multiset(reordered) == multiset(items) ensures ReadsAsFold(hash, key, items, reordered) {
        ReorderedFunctional(items, reordered);
        SkippedView(hash, key, items, reordered);
        FoldTwo(items, reordered);
        SameSnapshotSameMap(items, reordered);
      }
    } else {
      var reordered := ContradictionBreaksFold(hash, key, items);
    }
  }

  lemma ReorderedFunctional(a: seq<Ping>, b: seq<Ping>)
    requires Functional(a) && multiset(a) == multiset(b)
    ensures Functional(b)
  {
    forall i, j | 0 <= i < j < |b| && b[i].target == b[j].target ensures b[i].reachable == b[j].reachable {
      assert b[i] in multiset(b) && b[j] in multiset(b);
      var x :| 0 <= x < |a| && a[x] == b[i];
      var y :| 0 <= y < |a| && a[y] == b[j];
    }
  }
}
