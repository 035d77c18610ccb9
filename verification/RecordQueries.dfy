/**
 What the case service reads from the client records (`update_ping_status` and `update_change_flags`,
 app/services/case_service.py): the newest record of each client, and the records of each client in
 order of time. Records with equal times count in the order in which they are stored.
 */
module RecordQueries {
  import opened Wrappers
  import opened Seqs
  import opened ChangeDetection
  import opened ClientChanges
  import DottedOid

  // ---- The newest record of each client ----

  function NewestOf(rows: seq<Row>, client: int): Option<Row> {
    if rows == [] then None
    else
      var before, row := NewestOf(Front(rows), client), Last(rows);
      if row.record.clientId != client || (before.Some? && row.at < before.value.at) then before else Some(row)
  }

  lemma {:induction false} NewestOfMeaning(rows: seq<Row>, client: int)
    ensures match NewestOf(rows, client)
      case None => forall row :: row in rows ==> row.record.clientId != client
      case Some(newest) =>
        && newest in rows && newest.record.clientId == client
        && forall row :: row in rows && row.record.clientId == client ==> row.at <= newest.at
  {
    if rows != [] {
      NewestOfMeaning(Front(rows), client);
      assert rows == Front(rows) + [Last(rows)];
    }
  }

  function Recorded(rows: seq<Row>): set<nat> {
    set row | row in rows && row.record.clientId > 0 :: row.record.clientId
  }

  /** `row_number() over (partition by client_id order by collected_at desc) == 1` */
  function NewestPings(rows: seq<Row>): map<nat, Option<bool>> {
    map client | client in Recorded(rows) && NewestOf(rows, client).Some? :: NewestOf(rows, client).value.record.ping
  }

  /** A client has a ping result exactly if it has a record, and then that of its newest one. */
  lemma NewestPingsMeaning(rows: seq<Row>, client: nat)
    requires client > 0
    ensures client in NewestPings(rows) <==> exists row :: row in rows && row.record.clientId == client
    ensures client in NewestPings(rows) ==>
      exists newest :: newest in rows && newest.record.clientId == client
        && newest.record.ping == NewestPings(rows)[client]
        && forall row :: row in rows && row.record.clientId == client ==> row.at <= newest.at
  {
    NewestOfMeaning(rows, client);
    if row :| row in rows && row.record.clientId == client { assert client in Recorded(rows); }
    if client in NewestPings(rows) {
      var newest := NewestOf(rows, client).value;
      assert newest in rows && newest.record.clientId == client && newest.record.ping == NewestPings(rows)[client];
    }
  }

  // ---- The records in order of client and time ----

  predicate Before(a: Row, b: Row) {
    a.record.clientId < b.record.clientId || (a.record.clientId == b.record.clientId && a.at <= b.at)
  }

  function Insert(sorted: seq<Row>, row: Row): seq<Row> {
    if sorted == [] || Before(Last(sorted), row) then sorted + [row]
    else Insert(Front(sorted), row) + [Last(sorted)]
  }

  /** Records of clients that are not on the list carry no client id, written 0. */
  function Linked(): Row -> bool {
    (row: Row) => row.record.clientId != 0
  }

  /** `order_by(client_id, collected_at)` */
  function InOrder(rows: seq<Row>): seq<Row> {
    if rows == [] then [] else Insert(InOrder(Front(rows)), Last(rows))
  }

  ghost predicate Sorted(rows: seq<Row>) {
    forall i, j :: 0 <= i < j < |rows| ==> Before(rows[i], rows[j])
  }

  lemma {:induction false} InsertCounts(sorted: seq<Row>, row: Row)
    ensures multiset(Insert(sorted, row)) == multiset(sorted) + multiset{row}
  {
    if sorted != [] && !Before(Last(sorted), row) {
      InsertCounts(Front(sorted), row);
      assert sorted == Front(sorted) + [Last(sorted)];
    }
  }

  lemma SortedNext(sorted: seq<Row>, row: Row)
    requires Sorted(sorted) && forall r :: r in sorted ==> Before(r, row)
    ensures Sorted(sorted + [row])
  {
  }

  lemma {:induction false} InsertSorts(sorted: seq<Row>, row: Row)
    requires Sorted(sorted)
    ensures Sorted(Insert(sorted, row))
  {
    if sorted == [] || Before(Last(sorted), row) {
      SortedNext(sorted, row);
    } else {
      var front := Front(sorted);
      InsertSorts(front, row);
      InsertCounts(front, row);
      forall r | r in Insert(front, row) ensures Before(r, Last(sorted)) {
        assert r in multiset(front) + multiset{row};
      }
      SortedNext(Insert(front, row), Last(sorted));
    }
  }

  lemma {:induction false} InOrderMeaning(rows: seq<Row>)
    ensures Sorted(InOrder(rows)) && multiset(InOrder(rows)) == multiset(rows)
  {
    if rows != [] {
      InOrderMeaning(Front(rows));
      InsertSorts(InOrder(Front(rows)), Last(rows));
      InsertCounts(InOrder(Front(rows)), Last(rows));
      assert rows == Front(rows) + [Last(rows)];
    }
  }

  /** The records of one client, oldest first. */
  function HistoryOf(rows: seq<Row>, client: int): seq<Row> {
    Filter(InOrder(Filter(rows, Linked())), OfClient(client))
  }

  lemma HistoryMeaning(rows: seq<Row>, client: int)
    requires client != 0
    ensures var h := HistoryOf(rows, client);
      && (forall i, j :: 0 <= i < j < |h| ==> h[i].at <= h[j].at)
      && multiset(h) == multiset(Filter(rows, OfClient(client)))
  {
    var h, ordered := HistoryOf(rows, client), InOrder(Filter(rows, Linked()));
    InOrderMeaning(Filter(rows, Linked()));
    FilterOrdered(ordered, OfClient(client), (a: Row, b: Row) => Before(a, b));
    forall row | row in h ensures row.record.clientId == client { FilterMember(ordered, OfClient(client), row); }
    forall row ensures multiset(h)[row] == multiset(Filter(rows, OfClient(client)))[row] {
      FilterCount(ordered, OfClient(client), row);
      FilterCount(rows, Linked(), row);
      FilterCount(rows, OfClient(client), row);
    }
  }

  // ---- The tracked attributes ----

  datatype Attribute = Ping | Vlan | Acl | Link | Speed | Duplex | Interface

  const TRACKED := [Ping, Vlan, Acl, Link, Speed, Duplex, Interface]

  datatype Value = Flag(flag: bool) | Number(number: int) | Name(name: string)

  /** Python's `str` */
  function Str(v: Value): string {
    match v
    case Flag(b) => if b then "True" else "False"
    case Number(n) => if n < 0 then "-" + DottedOid.Decimal(-n) else DottedOid.Decimal(n)
    case Name(s) => s
  }

  function Named(s: Option<string>): Option<Value> {
    if s.Some? then Some(Name(s.value)) else None
  }

  function ValueOf(row: Row, a: Attribute): Option<Value> {
    match a
    case Ping => if row.record.ping.Some? then Some(Flag(row.record.ping.value)) else None
    case Vlan => if row.record.at.vlan.Some? then Some(Number(row.record.at.vlan.value)) else None
    case Acl => Named(row.record.at.acl)
    case Link => Named(row.record.at.link)
    case Speed => Named(row.record.at.speed)
    case Duplex => Named(row.record.at.duplex)
    case Interface => Named(row.record.at.iface)
  }

  function ValuesOf(history: seq<Row>, a: Attribute): seq<Observation<Value>> {
    Map(history, (row: Row) => Observation(ValueOf(row, a), row.at))
  }

  type Flags = map<Attribute, bool>

  function FlagsOf(history: seq<Row>, now: int): Flags {
    map a | a in TRACKED :: Changed(Str, ValuesOf(history, a), now)
  }

  lemma NumberInjective(m: int, n: int)
    requires Str(Number(m)) == Str(Number(n))
    ensures m == n
  {
    DecimalUnsigned(if m < 0 then -m else m);
    DecimalUnsigned(if n < 0 then -n else n);
    if m < 0 {
      assert ("-" + DottedOid.Decimal(-m))[1..] == DottedOid.Decimal(-m);
      assert ("-" + DottedOid.Decimal(-n))[1..] == DottedOid.Decimal(-n);
      DottedOid.DecimalInjective(-m, -n);
    } else {
      DottedOid.DecimalInjective(m, n);
    }
  }

  /** Different values of one kind have different texts. */
  lemma StrInjective(v: Value, w: Value)
    requires v.Flag? == w.Flag? && v.Number? == w.Number? && Str(v) == Str(w)
    ensures v == w
  {
    match v
    case Flag(_) =>
    case Number(n) => NumberInjective(n, w.number);
    case Name(_) =>
  }

  lemma {:induction false} DecimalUnsigned(n: nat)
    ensures DottedOid.Decimal(n)[0] != '-'
  {
    if n >= 10 { DecimalUnsigned(n / 10); }
  }

  predicate DifferIn(r: Row, s: Row, client: int, a: Attribute) {
    && r.record.clientId == client && s.record.clientId == client && client != 0
    && ValueOf(r, a).Some? && ValueOf(s, a).Some? && ValueOf(r, a) != ValueOf(s, a)
  }

  predicate BothDiffer<T(==)>(a: Option<T>, b: Option<T>) {
    a.Some? && b.Some? && a.value != b.value
  }

  /** Which column of the records each attribute is. */
  lemma DifferInIff(r: Row, s: Row, client: int, a: Attribute)
    requires r.record.clientId == client && s.record.clientId == client && client != 0
    ensures DifferIn(r, s, client, a) <==>
      match a
      case Ping => BothDiffer(r.record.ping, s.record.ping)
      case Vlan => BothDiffer(r.record.at.vlan, s.record.at.vlan)
      case Acl => BothDiffer(r.record.at.acl, s.record.at.acl)
      case Link => BothDiffer(r.record.at.link, s.record.at.link)
      case Speed => BothDiffer(r.record.at.speed, s.record.at.speed)
      case Duplex => BothDiffer(r.record.at.duplex, s.record.at.duplex)
      case Interface => BothDiffer(r.record.at.iface, s.record.at.iface)
  {
  }

  /** Two records of the client with different known values of the attribute. */
  ghost predicate TwoDiffer(rows: seq<Row>, client: int, a: Attribute) {
    exists r, s :: r in rows && s in rows && DifferIn(r, s, client, a)
  }

  /** The attribute of the client has been known since a record that ended a gap, at most 15 minutes ago. */
  ghost predicate Regained(rows: seq<Row>, client: int, a: Attribute, now: int) {
    exists k :: RegainedAt(ValuesOf(HistoryOf(rows, client), a), k, now)
  }

  lemma HistoryMember(rows: seq<Row>, client: int, row: Row)
    ensures row in HistoryOf(rows, client) <==> row in rows && row.record.clientId == client && client != 0
  {
    var linked := Filter(rows, Linked());
    InOrderMeaning(linked);
    FilterMember(rows, Linked(), row);
    FilterMember(InOrder(linked), OfClient(client), row);
    assert row in multiset(linked) <==> row in multiset(InOrder(linked));
  }

  lemma DifferAt(h: seq<Row>, i: nat, j: nat, client: int, a: Attribute)
    requires client != 0 && i < |h| && j < |h| && h[i].record.clientId == client && h[j].record.clientId == client
    ensures Differ(Str, ValuesOf(h, a)[i], ValuesOf(h, a)[j]) <==> DifferIn(h[i], h[j], client, a)
  {
    if ValueOf(h[i], a).Some? && ValueOf(h[j], a).Some? {
      var v, w := ValueOf(h[i], a).value, ValueOf(h[j], a).value;
      if Str(v) == Str(w) { StrInjective(v, w); }
    }
  }

  lemma TwoInHistory(rows: seq<Row>, client: int, a: Attribute, r: Row, s: Row)
    requires r in rows && s in rows && DifferIn(r, s, client, a)
    ensures TwoValues(Str, ValuesOf(HistoryOf(rows, client), a))
  {
    var h := HistoryOf(rows, client);
    HistoryMember(rows, client, r);
    HistoryMember(rows, client, s);
    var i :| 0 <= i < |h| && h[i] == r;
    var j :| 0 <= j < |h| && h[j] == s;
    DifferAt(h, i, j, client, a);
  }

  lemma TwoDifferIff(rows: seq<Row>, client: int, a: Attribute)
    ensures TwoValues(Str, ValuesOf(HistoryOf(rows, client), a)) <==> TwoDiffer(rows, client, a)
  {
    var h := HistoryOf(rows, client);
    var values := ValuesOf(h, a);
    if i, j :| 0 <= i < |values| && 0 <= j < |values| && Differ(Str, values[i], values[j]) {
      HistoryMember(rows, client, h[i]);
      HistoryMember(rows, client, h[j]);
      DifferAt(h, i, j, client, a);
    }
    if r, s :| r in rows && s in rows && DifferIn(r, s, client, a) { TwoInHistory(rows, client, a, r, s); }
  }

  /**
   The flag of an attribute, in terms of the stored records in whatever order: two of them differ in
   it, or it came back after a gap no more than 15 minutes ago.
   */
  lemma FlaggedIff(rows: seq<Row>, client: int, a: Attribute, now: int)
    ensures a in FlagsOf(HistoryOf(rows, client), now)
    ensures FlagsOf(HistoryOf(rows, client), now)[a] <==> TwoDiffer(rows, client, a) || Regained(rows, client, a, now)
  {
    AllTracked(a);
    ChangedIff(Str, ValuesOf(HistoryOf(rows, client), a), now);
    TwoDifferIff(rows, client, a);
  }

  lemma AllTracked(a: Attribute)
    ensures a in TRACKED
  {
    assert TRACKED[0] == Ping && TRACKED[1] == Vlan && TRACKED[2] == Acl && TRACKED[3] == Link;
    assert TRACKED[4] == Speed && TRACKED[5] == Duplex && TRACKED[6] == Interface;
  }

  // ---- The loops ----

  method GroupByClient(rows: seq<Row>) returns (groups: map<int, seq<Row>>)
    ensures forall client :: (if client in groups then groups[client] else []) == HistoryOf(rows, client)
  {
    var ordered := InOrder(Filter(rows, Linked()));
    groups := map[];
    for i := 0 to |ordered|
      invariant forall client :: Collected(groups, ordered[..i], client)
    {
      var row := ordered[i];
      var id := row.record.clientId;
      ghost var before, next := groups, ordered[..i + 1];
      LinkedOnly(rows, row);
      if id != 0 {
        groups := groups[id := (if id in groups then groups[id] else []) + [row]];
      }
      forall client ensures Collected(groups, next, client) {
        assert Collected(before, ordered[..i], client);
        TakeNext(ordered, i);
        FilterAppend(ordered[..i], [row], OfClient(client));
        FilterOne(row, OfClient(client));
      }
    }
    assert ordered[..|ordered|] == ordered;
    forall client ensures (if client in groups then groups[client] else []) == HistoryOf(rows, client) {
      assert Collected(groups, ordered, client);
    }
  }

  lemma LinkedOnly(rows: seq<Row>, row: Row)
    requires row in InOrder(Filter(rows, Linked()))
    ensures row.record.clientId != 0
  {
    InOrderMeaning(Filter(rows, Linked()));
    assert row in multiset(Filter(rows, Linked()));
    FilterMember(rows, Linked(), row);
  }

  ghost predicate Collected(groups: map<int, seq<Row>>, rows: seq<Row>, client: int) {
    (if client in groups then groups[client] else []) == Filter(rows, OfClient(client))
  }

  method ComputeFlags(records: seq<Row>, now: int) returns (flags: Flags)
    ensures flags == FlagsOf(records, now)
  {
    flags := map[];
    for i := 0 to |TRACKED|
      invariant flags == map a | a in TRACKED[..i] :: Changed(Str, ValuesOf(records, a), now)
    {
      TakeNext(TRACKED, i);
      var values := ValuesOf(records, TRACKED[i]);
      var transition := GetTransitionTs(values);
      flags := flags[TRACKED[i] := Detect(Str, values, transition, now)];
    }
    assert TRACKED[..|TRACKED|] == TRACKED;
  }
}
