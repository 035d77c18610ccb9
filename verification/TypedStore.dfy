/**
 The baseline-and-change-point store of app/repositories/typed_records.py, the retention rules of
 app/services/retention.py and the error rows of app/snmp/collection_coordinator.py, on values:
 each operation maps a database to a database.

 Tables are sequences in primary-key order.  A snapshot is what one collection of one device
 parsed; it is written only when its hash differs from that of the previous snapshot.
 */
module TypedStore {
  import opened Wrappers
  import opened Seqs

  /** A (maintenance, collection type, switch) combination. */
  datatype Key = Key(maintenance: string, ctype: string, host: string)

  /** What the model does not look into: interface-name normalisation and the content hash. */
  datatype Ops<!Item(==)> = Ops(normalize: Item -> Item, hash: multiset<Item> -> string)

  datatype Batch = Batch(id: nat, key: Key, itemCount: nat, collectedAt: int)

  datatype Record<Item> = Record(batchId: nat, maintenance: string, host: string, collectedAt: int, data: Item)

  datatype Latest = Latest(batchId: nat, dataHash: string, collectedAt: int, lastCheckedAt: int)

  datatype DB<Item> = DB(
    batches: seq<Batch>,
    records: seq<Record<Item>>,
    latest: map<Key, Latest>,
    errors: map<Key, string>,
    nextId: nat)

  function Hash<Item(==)>(ops: Ops<Item>, items: seq<Item>): string {
    ops.hash(multiset(items))
  }

  // ---- Operations ----

  function NewRecords<Item(==)>(ops: Ops<Item>, id: nat, key: Key, now: int, items: seq<Item>): seq<Record<Item>> {
    Map(items, (x: Item) => Record(id, key.maintenance, key.host, now, ops.normalize(x)))
  }

  /** A new change point: batch, records, pointer. */
  function Grown<Item(==)>(ops: Ops<Item>, db: DB<Item>, key: Key, items: seq<Item>, now: int): DB<Item> {
    db.(batches := db.batches + [Batch(db.nextId, key, |items|, now)],
        records := db.records + NewRecords(ops, db.nextId, key, now, items),
        latest := db.latest[key := Latest(db.nextId, Hash(ops, items), now, now)],
        nextId := db.nextId + 1)
  }

  /** `TypedRecordRepository.save_batch` */
  function Save<Item(==)>(ops: Ops<Item>, db: DB<Item>, key: Key, items: seq<Item>, now: int): DB<Item> {
    if key in db.latest && db.latest[key].dataHash == Hash(ops, items) then
      db.(latest := db.latest[key := db.latest[key].(lastCheckedAt := now)])
    else Grown(ops, db, key, items, now)
  }

  function LatestIds<Item>(db: DB<Item>): set<nat> {
    set k | k in db.latest :: db.latest[k].batchId
  }

  function Young(ids: set<nat>, cutoff: int): Batch -> bool {
    (b: Batch) => !(b.collectedAt < cutoff && b.id !in ids)
  }

  function NotExpired(expired: set<string>): Batch -> bool {
    (b: Batch) => b.key.maintenance !in expired
  }

  function InBatches<Item>(ids: set<nat>): Record<Item> -> bool {
    (r: Record<Item>) => r.batchId in ids
  }

  function Ids(batches: seq<Batch>): set<nat> {
    set b | b in batches :: b.id
  }

  /** Deletes batches; their records go with them (foreign key with cascading delete). */
  function Retain<Item>(db: DB<Item>, keep: Batch -> bool): DB<Item> {
    var batches := Filter(db.batches, keep);
    db.(batches := batches, records := Filter(db.records, InBatches(Ids(batches))))
  }

  /** `RetentionService.cleanup_old_batches`: over-age batches that no pointer uses. */
  function CleanupOld<Item>(db: DB<Item>, cutoff: int): DB<Item> {
    Retain(db, Young(LatestIds(db), cutoff))
  }

  /** `RetentionService.cleanup_deactivated`: everything collected for the expired maintenances. */
  function CleanupDeactivated<Item>(db: DB<Item>, expired: set<string>): DB<Item> {
    Retain(db, NotExpired(expired)).(
      latest := map k | k in db.latest && k.maintenance !in expired :: db.latest[k],
      errors := map k | k in db.errors && k.maintenance !in expired :: db.errors[k])
  }

  // ---- Queries ----

  function OfKey(key: Key): Batch -> bool {
    (b: Batch) => b.key == key
  }

  /** The change points of a key, oldest first. */
  function BatchesOf<Item>(db: DB<Item>, key: Key): seq<Batch> {
    Filter(db.batches, OfKey(key))
  }

  function OfBatch<Item>(id: nat): Record<Item> -> bool {
    (r: Record<Item>) => r.batchId == id
  }

  function RecordsOf<Item>(db: DB<Item>, id: nat): seq<Record<Item>> {
    Filter(db.records, OfBatch(id))
  }

  function Data<Item>(records: seq<Record<Item>>): seq<Item> {
    Map(records, (r: Record<Item>) => r.data)
  }

  /** What is stored under one batch. */
  function Content<Item>(db: DB<Item>, b: Batch): seq<Item> {
    Data(RecordsOf(db, b.id))
  }

  function LatestIdsOf<Item>(db: DB<Item>, maintenance: string, ctype: string): set<nat> {
    set k | k in db.latest && k.maintenance == maintenance && k.ctype == ctype :: db.latest[k].batchId
  }

  function InLatest<Item>(ids: set<nat>, maintenance: string): Record<Item> -> bool {
    (r: Record<Item>) => r.batchId in ids && r.maintenance == maintenance
  }

  function OfHost<Item>(host: string): Record<Item> -> bool {
    (r: Record<Item>) => r.host == host
  }

  /** `TypedRecordRepository.get_latest_per_device` */
  function GetLatest<Item>(db: DB<Item>, maintenance: string, ctype: string): seq<Record<Item>> {
    Filter(db.records, InLatest(LatestIdsOf(db, maintenance, ctype), maintenance))
  }

  /** The rows of one device among the latest ones. */
  function LatestOf<Item>(db: DB<Item>, key: Key): seq<Item> {
    Data(Filter(GetLatest(db, key.maintenance, key.ctype), OfHost(key.host)))
  }

  // ---- Histories ----

  datatype Event<Item> =
    | Observed(key: Key, items: seq<Item>, at: int)       // a successful collection
    | Failure(key: Key, message: string)                  // a failed one
    | OldCleaned(cutoff: int)
    | Deactivated(expired: set<string>)

  /** One committed change: data and error row of a key change together. */
  function Apply<Item(==)>(ops: Ops<Item>, db: DB<Item>, e: Event<Item>): DB<Item> {
    match e
    case Observed(key, items, at) => Save(ops, db, key, items, at).(errors := db.errors - {key})
    case Failure(key, message) => db.(errors := db.errors[key := message])
    case OldCleaned(cutoff) => CleanupOld(db, cutoff)
    case Deactivated(expired) => CleanupDeactivated(db, expired)
  }

  function Empty<Item>(): DB<Item> {
    DB([], [], map[], map[], 1)
  }

  function Replay<Item(==)>(ops: Ops<Item>, history: seq<Event<Item>>): DB<Item> {
    if history == [] then Empty()
    else Apply(ops, Replay(ops, history[..|history| - 1]), Last(history))
  }

  /** The reference store: every snapshot of the key, since its maintenance was last wiped. */
  function Snapshots<Item>(history: seq<Event<Item>>, key: Key): seq<seq<Item>> {
    if history == [] then []
    else After(Snapshots(history[..|history| - 1], key), Last(history), key)
  }

  function After<Item>(snapshots: seq<seq<Item>>, e: Event<Item>, key: Key): seq<seq<Item>> {
    match e
    case Observed(k, items, _) => if k == key then snapshots + [items] else snapshots
    case Deactivated(expired) => if key.maintenance in expired then [] else snapshots
    case _ => snapshots
  }

  /** The failure message if the last collection of the key failed. */
  function LastFailure<Item>(history: seq<Event<Item>>, key: Key): Option<string> {
    if history == [] then None
    else
      var before := LastFailure(history[..|history| - 1], key);
      match Last(history)
      case Observed(k, _, _) => if k == key then None else before
      case Failure(k, message) => if k == key then Some(message) else before
      case Deactivated(expired) => if key.maintenance in expired then None else before
      case _ => before
  }

  /** Snapshots with adjacent equal ones collapsed to the first of them. */
  function Collapse<Item(==)>(ops: Ops<Item>, snapshots: seq<seq<Item>>): seq<seq<Item>> {
    if snapshots == [] then []
    else
      var front, last := snapshots[..|snapshots| - 1], Last(snapshots);
      Collapse(ops, front) + (if front != [] && Hash(ops, Last(front)) == Hash(ops, last) then [] else [last])
  }

  function Normalized<Item(==)>(ops: Ops<Item>, items: seq<Item>): seq<Item> {
    Map(items, ops.normalize)
  }

  // ---- Integrity of the tables ----

  predicate Owns<Item>(b: Batch, r: Record<Item>) {
    b.id == r.batchId && b.key.maintenance == r.maintenance && b.key.host == r.host
  }

  ghost predicate BatchTable<Item>(db: DB<Item>) {
    && (forall i, j :: 0 <= i < j < |db.batches| ==> db.batches[i].id < db.batches[j].id)
    && (forall b :: b in db.batches ==> b.id < db.nextId)
  }

  /** Every record belongs to a batch of its own maintenance and switch. */
  ghost predicate RecordKeys<Item>(db: DB<Item>) {
    forall r :: r in db.records ==> exists b :: b in db.batches && Owns(b, r)
  }

  /** The pointer of a key is its newest batch; a key without pointer has no batch. */
  ghost predicate PointerOk<Item>(db: DB<Item>, key: Key) {
    var own := BatchesOf(db, key);
    if key in db.latest then own != [] && Last(own).id == db.latest[key].batchId else own == []
  }

  ghost predicate Integrity<Item>(db: DB<Item>) {
    && BatchTable(db)
    && RecordKeys(db)
    && forall key :: PointerOk(db, key)
  }

  lemma SameBatch<Item>(db: DB<Item>, a: Batch, b: Batch)
    requires BatchTable(db) && a in db.batches && b in db.batches && a.id == b.id
    ensures a == b
  {
    var i :| 0 <= i < |db.batches| && db.batches[i] == a;
    var j :| 0 <= j < |db.batches| && db.batches[j] == b;
  }
}
