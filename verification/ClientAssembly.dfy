/**
 Assembling client records from the collected tables (`collect_client_data` in
 app/services/client_collection_service.py): candidates per MAC address, the best location per MAC
 address, then one record per client.
 */
module ClientAssembly {
  import opened Wrappers
  import opened Seqs
  import opened CandidateSelection
  import opened Text
  import P = ClientPing

  datatype Client = Client(id: int, mac: string, ip: Option<string>)

  datatype MacRecord = MacRecord(mac: string, switch: string, iface: string, vlan: Option<int>)

  datatype PortStatus = PortStatus(speed: Option<string>, duplex: Option<string>, link: Option<string>)

  datatype AclRecord = AclRecord(switch: string, iface: string, acl: Option<string>)

  /** The lookup tables of one collection. */
  datatype Tables = Tables(
    status: map<(string, string), PortStatus>,
    acl: map<(string, string), string>,
    ping: map<string, bool>,
    neighbours: set<(string, string)>,
    mbps: string -> Option<int>)

  datatype ClientRecord = ClientRecord(clientId: int, mac: string, ip: Option<string>, at: Location, ping: Option<bool>)

  // ---- Specification ----

  function HasMac(mac: string): MacRecord -> bool {
    (r: MacRecord) => Upper(r.mac) == mac
  }

  function OnPort(port: (string, string)): MacRecord -> bool {
    (r: MacRecord) => (r.switch, r.iface) == port
  }

  function MacCounts(records: seq<MacRecord>): map<(string, string), nat> {
    map r | r in records :: (r.switch, r.iface) := |Filter(records, OnPort((r.switch, r.iface)))|
  }

  function PortsOf(tables: Tables, records: seq<MacRecord>): Ports {
    Ports(tables.neighbours, MacCounts(records), tables.mbps)
  }

  function Lookup<K, V>(m: map<K, V>, k: K): Option<V> {
    if k in m then Some(m[k]) else None
  }

  function CandidateFrom(tables: Tables, r: MacRecord): Candidate {
    var port := (r.switch, r.iface);
    var status := if port in tables.status then tables.status[port] else PortStatus(None, None, None);
    Candidate(r.mac, r.switch, r.iface, r.vlan, status.speed, status.duplex, status.link, Lookup(tables.acl, port))
  }

  function ToCandidate(tables: Tables): MacRecord -> Candidate {
    (r: MacRecord) => CandidateFrom(tables, r)
  }

  /** The places a MAC address was learned at. */
  function CandidatesOf(tables: Tables, records: seq<MacRecord>, mac: string): seq<Candidate> {
    Map(Filter(records, HasMac(mac)), ToCandidate(tables))
  }

  function PingOf(tables: Tables, client: Client): Option<bool> {
    if NonEmpty(client.ip) then Lookup(tables.ping, client.ip.value) else None
  }

  /** What one collection says about one client. */
  function RecordFor(tables: Tables, records: seq<MacRecord>, client: Client): ClientRecord {
    var candidates := CandidatesOf(tables, records, Upper(client.mac));
    var choice :=
      if candidates == [] then Choice(client.mac, NOWHERE) else SelectBest(PortsOf(tables, records), candidates);
    ClientRecord(client.id, choice.mac, client.ip, choice.at, PingOf(tables, client))
  }

  function ToRecord(tables: Tables, records: seq<MacRecord>): Client -> ClientRecord {
    (client: Client) => RecordFor(tables, records, client)
  }

  /** The location is that of this MAC record, with what the tables say of its port. */
  ghost predicate LocatedBy(tables: Tables, m: MacRecord, r: ClientRecord) {
    var port := (m.switch, m.iface);
    && r.mac == m.mac && r.at.switch == Some(m.switch) && r.at.iface == Some(m.iface) && r.at.vlan == m.vlan
    && r.at.acl == Lookup(tables.acl, port)
    && PortStatus(r.at.speed, r.at.duplex, r.at.link)
         == (if port in tables.status then tables.status[port] else PortStatus(None, None, None))
  }

  /** A place where the client's MAC address was really learned, or none. */
  lemma LocationMeaning(tables: Tables, records: seq<MacRecord>, client: Client)
    ensures var r := RecordFor(tables, records, client);
      r.at == NOWHERE || exists m :: m in records && Upper(m.mac) == Upper(client.mac) && LocatedBy(tables, m, r)
  {
    var own := Filter(records, HasMac(Upper(client.mac)));
    var candidates := CandidatesOf(tables, records, Upper(client.mac));
    if own != [] {
      CascadeIsArgmin(PortsOf(tables, records), candidates);
      var best := Best(PortsOf(tables, records), candidates);
      if |best| == 1 {
        FilterMember(candidates, Unbeaten(PortsOf(tables, records), candidates, 6), best[0]);
        var i :| 0 <= i < |candidates| && candidates[i] == best[0];
        FilterMember(records, HasMac(Upper(client.mac)), own[i]);
        assert LocatedBy(tables, own[i], RecordFor(tables, records, client));
      }
    }
  }

  /**
   A client's record: its own identity, the ping result of its own IP address, and a place where its
   MAC address was learned; a client whose address was learned nowhere has no place.
   */
  lemma RecordMeaning(tables: Tables, records: seq<MacRecord>, client: Client)
    ensures var r := RecordFor(tables, records, client);
      && r.clientId == client.id && r.ip == client.ip
      && (r.ping.Some? <==> NonEmpty(client.ip) && client.ip.value in tables.ping)
      && (r.ping.Some? ==> r.ping.value == tables.ping[client.ip.value])
      && (r.at == NOWHERE || exists m :: m in records && Upper(m.mac) == Upper(client.mac) && LocatedBy(tables, m, r))
    ensures (forall m :: m in records ==> Upper(m.mac) != Upper(client.mac)) ==>
      RecordFor(tables, records, client).at == NOWHERE && RecordFor(tables, records, client).mac == client.mac
  {
    LocationMeaning(tables, records, client);
    var own := Filter(records, HasMac(Upper(client.mac)));
    if own != [] { FilterMember(records, HasMac(Upper(client.mac)), own[0]); }
  }

  // ---- ACL table: static entries take precedence ----

  /** The last ACL number recorded for a port; empty ones are ignored. */
  function LastAcl(records: seq<AclRecord>, port: (string, string)): Option<string> {
    if records == [] then None
    else if NonEmpty(Last(records).acl) && (Last(records).switch, Last(records).iface) == port then Last(records).acl
    else LastAcl(records[..|records| - 1], port)
  }

  function OrElse<T>(a: Option<T>, b: Option<T>): Option<T> {
    if a.Some? then a else b
  }

  function WithAcls(before: map<(string, string), string>, records: seq<AclRecord>): map<(string, string), string> {
    if records == [] then before
    else
      var acl, r := WithAcls(before, Front(records)), Last(records);
      if NonEmpty(r.acl) then acl[(r.switch, r.iface) := r.acl.value] else acl
  }

  lemma {:induction false} WithAclsMeaning(before: map<(string, string), string>, records: seq<AclRecord>,
                                           port: (string, string))
    ensures Lookup(WithAcls(before, records), port) == OrElse(LastAcl(records, port), Lookup(before, port))
  {
    if records != [] { WithAclsMeaning(before, Front(records), port); }
  }

  method AddAcls(before: map<(string, string), string>, records: seq<AclRecord>)
    returns (acl: map<(string, string), string>)
    ensures acl == WithAcls(before, records)
  {
    acl := before;
    for i := 0 to |records|
      invariant acl == WithAcls(before, records[..i])
    {
      assert Front(records[..i + 1]) == records[..i];
      if NonEmpty(records[i].acl) {
        acl := acl[(records[i].switch, records[i].iface) := records[i].acl.value];
      }
    }
    assert records[..|records|] == records;
  }

  method BuildAclMap(dynamicAcls: seq<AclRecord>, staticAcls: seq<AclRecord>)
    returns (acl: map<(string, string), string>)
    ensures acl == WithAcls(WithAcls(map[], dynamicAcls), staticAcls)
    ensures forall port :: Lookup(acl, port) == OrElse(LastAcl(staticAcls, port), LastAcl(dynamicAcls, port))
  {
    acl := AddAcls(map[], dynamicAcls);
    forall port ensures Lookup(acl, port) == LastAcl(dynamicAcls, port) { WithAclsMeaning(map[], dynamicAcls, port); }
    ghost var base := acl;
    acl := AddAcls(acl, staticAcls);
    forall port ensures Lookup(acl, port) == OrElse(LastAcl(staticAcls, port), Lookup(base, port)) {
      WithAclsMeaning(base, staticAcls, port);
    }
  }

  // ---- The other lookup tables ----

  datatype StatusRecord = StatusRecord(switch: string, iface: string, status: PortStatus)

  datatype NeighbourRecord = NeighbourRecord(switch: string, local: Option<string>)

  /** What one collection reads from the store, and the two functions the model does not look into. */
  datatype Sources = Sources(
    status: seq<StatusRecord>, pings: seq<P.Ping>, dynamicAcls: seq<AclRecord>, staticAcls: seq<AclRecord>,
    lldp: seq<NeighbourRecord>, cdp: seq<NeighbourRecord>, normalize: string -> string, mbps: string -> Option<int>)

  function StatusMap(records: seq<StatusRecord>): map<(string, string), PortStatus> {
    if records == [] then map[]
    else StatusMap(Front(records))[(Last(records).switch, Last(records).iface) := Last(records).status]
  }

  /** A record without local interface names no port a MAC address can be learned on. */
  function PortOfNeighbour(normalize: string -> string, r: NeighbourRecord): Option<(string, string)> {
    if r.local.None? then None
    else if r.local.value == "" then Some((r.switch, ""))
    else Some((r.switch, normalize(r.local.value)))
  }

  function NeighbourPorts(normalize: string -> string, records: seq<NeighbourRecord>): set<(string, string)> {
    set r | r in records && PortOfNeighbour(normalize, r).Some? :: PortOfNeighbour(normalize, r).value
  }

  /** The tables of a collection: later rows replace earlier ones, static ACLs dynamic ones. */
  function TablesOf(s: Sources): Tables {
    Tables(StatusMap(s.status), WithAcls(WithAcls(map[], s.dynamicAcls), s.staticAcls), P.PingMap(s.pings),
           NeighbourPorts(s.normalize, s.lldp) + NeighbourPorts(s.normalize, s.cdp), s.mbps)
  }

  // ---- What the tables hold, in terms of the stored rows ----

  function LastStatus(records: seq<StatusRecord>, port: (string, string)): Option<PortStatus> {
    if records == [] then None
    else if (Last(records).switch, Last(records).iface) == port then Some(Last(records).status)
    else LastStatus(Front(records), port)
  }

  function LastPing(pings: seq<P.Ping>, target: string): Option<bool> {
    if pings == [] then None
    else if Last(pings).target == target then Some(Last(pings).reachable)
    else LastPing(Front(pings), target)
  }

  /** The static ACL recorded last for the port, or else the dynamic one. */
  function AclAt(s: Sources, port: (string, string)): Option<string> {
    if LastAcl(s.staticAcls, port).Some? then LastAcl(s.staticAcls, port) else LastAcl(s.dynamicAcls, port)
  }

  /** A neighbour was seen on the port, by LLDP or CDP. */
  ghost predicate NeighbourAt(s: Sources, port: (string, string)) {
    exists r :: (r in s.lldp || r in s.cdp) && r.switch == port.0 && r.local.Some?
      && port.1 == if r.local.value == "" then "" else s.normalize(r.local.value)
  }

  lemma {:induction false} StatusMapMeaning(records: seq<StatusRecord>, port: (string, string))
    ensures Lookup(StatusMap(records), port) == LastStatus(records, port)
  {
    if records != [] { StatusMapMeaning(Front(records), port); }
  }

  lemma {:induction false} PingMapMeaning(pings: seq<P.Ping>, target: string)
    ensures Lookup(P.PingMap(pings), target) == LastPing(pings, target)
  {
    if pings != [] { PingMapMeaning(Front(pings), target); }
  }

  lemma NeighboursMeaning(s: Sources, port: (string, string))
    ensures port in NeighbourPorts(s.normalize, s.lldp) + NeighbourPorts(s.normalize, s.cdp) <==> NeighbourAt(s, port)
  {
    if r :| (r in s.lldp || r in s.cdp) && PortOfNeighbour(s.normalize, r) == Some(port) {
      assert r.switch == port.0 && r.local.Some?;
    }
    if NeighbourAt(s, port) {
      var r :| (r in s.lldp || r in s.cdp) && r.switch == port.0 && r.local.Some?
        && port.1 == if r.local.value == "" then "" else s.normalize(r.local.value);
      assert PortOfNeighbour(s.normalize, r) == Some(port);
    }
  }

  /** For every port and target, the tables hold what was recorded last, and static ACLs before dynamic ones. */
  lemma TablesMeaning(s: Sources, port: (string, string), target: string)
    ensures var tables := TablesOf(s);
      && Lookup(tables.status, port) == LastStatus(s.status, port)
      && Lookup(tables.acl, port) == AclAt(s, port)
      && Lookup(tables.ping, target) == LastPing(s.pings, target)
      && (port in tables.neighbours <==> NeighbourAt(s, port))
      && tables.mbps == s.mbps
  {
    StatusMapMeaning(s.status, port);
    PingMapMeaning(s.pings, target);
    NeighboursMeaning(s, port);
    WithAclsMeaning(map[], s.dynamicAcls, port);
    WithAclsMeaning(WithAcls(map[], s.dynamicAcls), s.staticAcls, port);
  }

  method BuildStatusMap(records: seq<StatusRecord>) returns (status: map<(string, string), PortStatus>)
    ensures status == StatusMap(records)
  {
    status := map[];
    for i := 0 to |records|
      invariant status == StatusMap(records[..i])
    {
      assert Front(records[..i + 1]) == records[..i];
      status := status[(records[i].switch, records[i].iface) := records[i].status];
    }
    assert records[..|records|] == records;
  }

  method BuildPingMap(records: seq<P.Ping>) returns (pings: map<string, bool>)
    ensures pings == P.PingMap(records)
  {
    pings := map[];
    for i := 0 to |records|
      invariant pings == P.PingMap(records[..i])
    {
      assert Front(records[..i + 1]) == records[..i];
      pings := pings[records[i].target := records[i].reachable];
    }
    assert records[..|records|] == records;
  }

  method AddNeighbours(normalize: string -> string, before: set<(string, string)>, records: seq<NeighbourRecord>)
    returns (ports: set<(string, string)>)
    ensures ports == before + NeighbourPorts(normalize, records)
  {
    ports := before;
    for i := 0 to |records|
      invariant ports == before + NeighbourPorts(normalize, records[..i])
    {
      NeighbourNext(normalize, records, i);
      var port := PortOfNeighbour(normalize, records[i]);
      if port.Some? {
        ports := ports + {port.value};
      }
    }
    assert records[..|records|] == records;
  }

  lemma NeighbourNext(normalize: string -> string, records: seq<NeighbourRecord>, i: nat)
    requires i < |records|
    ensures var port := PortOfNeighbour(normalize, records[i]);
      NeighbourPorts(normalize, records[..i + 1])
        == NeighbourPorts(normalize, records[..i]) + if port.Some? then {port.value} else {}
  {
    TakeNext(records, i);
    assert forall r :: r in records[..i + 1] <==> r in records[..i] || r == records[i];
  }

  method BuildTables(s: Sources) returns (tables: Tables)
    ensures tables == TablesOf(s)
    ensures forall port :: Lookup(tables.status, port) == LastStatus(s.status, port)
    ensures forall port :: Lookup(tables.acl, port) == AclAt(s, port)
    ensures forall target :: Lookup(tables.ping, target) == LastPing(s.pings, target)
    ensures forall port :: port in tables.neighbours <==> NeighbourAt(s, port)
  {
    forall port { TablesMeaning(s, port, ""); }
    forall target { TablesMeaning(s, ("", ""), target); }
    var status := BuildStatusMap(s.status);
    var pings := BuildPingMap(s.pings);
    var acl := BuildAclMap(s.dynamicAcls, s.staticAcls);
    var lldpPorts := AddNeighbours(s.normalize, {}, s.lldp);
    var neighbours := AddNeighbours(s.normalize, lldpPorts, s.cdp);
    tables := Tables(status, acl, pings, neighbours, s.mbps);
  }

  // ---- The loops ----

  function CountAt(counts: map<(string, string), nat>, port: (string, string)): nat {
    if port in counts then counts[port] else 0
  }

  lemma NextCount(records: seq<MacRecord>, i: nat, port: (string, string))
    requires i < |records|
    ensures |Filter(records[..i + 1], OnPort(port))|
      == |Filter(records[..i], OnPort(port))| + if (records[i].switch, records[i].iface) == port then 1 else 0
  {
    TakeNext(records, i);
    FilterAppend(records[..i], [records[i]], OnPort(port));
    FilterOne(records[i], OnPort(port));
  }

  lemma CountsComplete(records: seq<MacRecord>, counts: map<(string, string), nat>)
    requires forall port :: CountAt(counts, port) == |Filter(records, OnPort(port))|
    requires forall port :: port in counts ==> counts[port] > 0
    ensures counts == MacCounts(records)
  {
    forall port ensures port in counts <==> port in MacCounts(records) {
      assert CountAt(counts, port) == |Filter(records, OnPort(port))|;
      if port in counts {
        FilterMember(records, OnPort(port), Filter(records, OnPort(port))[0]);
      } else if port in MacCounts(records) {
        var r :| r in records && (r.switch, r.iface) == port;
        FilterMember(records, OnPort(port), r);
      }
    }
    forall port | port in counts ensures counts[port] == MacCounts(records)[port] {
      assert CountAt(counts, port) == |Filter(records, OnPort(port))|;
    }
  }

  method CountMacs(records: seq<MacRecord>) returns (counts: map<(string, string), nat>)
    ensures counts == MacCounts(records)
  {
    counts := map[];
    for i := 0 to |records|
      invariant forall port :: CountAt(counts, port) == |Filter(records[..i], OnPort(port))|
      invariant forall port :: port in counts ==> counts[port] > 0
    {
      var port := (records[i].switch, records[i].iface);
      forall p { NextCount(records, i, p); }
      counts := counts[port := CountAt(counts, port) + 1];
    }
    assert records[..|records|] == records;
    CountsComplete(records, counts);
  }

  function WithMac(mac: string): Client -> bool {
    (c: Client) => Upper(c.mac) == mac
  }

  function WithMacIn(macs: set<string>): Client -> bool {
    (c: Client) => Upper(c.mac) in macs
  }

  function GroupAt<T>(groups: map<string, seq<T>>, mac: string): seq<T> {
    if mac in groups then groups[mac] else []
  }

  method GroupClients(clients: seq<Client>) returns (groups: map<string, seq<Client>>)
    ensures forall mac :: GroupAt(groups, mac) == Filter(clients, WithMac(mac))
    ensures forall mac :: mac in groups ==> groups[mac] != []
  {
    groups := map[];
    for i := 0 to |clients|
      invariant forall mac :: GroupAt(groups, mac) == Filter(clients[..i], WithMac(mac))
      invariant forall mac :: mac in groups ==> groups[mac] != []
    {
      var c := clients[i];
      TakeNext(clients, i);
      forall mac ensures Filter(clients[..i + 1], WithMac(mac))
        == Filter(clients[..i], WithMac(mac)) + if mac == Upper(c.mac) then [c] else []
      {
        FilterAppend(clients[..i], [c], WithMac(mac));
        FilterOne(c, WithMac(mac));
      }
      groups := groups[Upper(c.mac) := GroupAt(groups, Upper(c.mac)) + [c]];
    }
    assert clients[..|clients|] == clients;
  }

  /** Candidates per listed MAC address; `order` is the insertion order of the dictionary. */
  ghost predicate Grouped(tables: Tables, records: seq<MacRecord>, listed: set<string>,
                          groups: map<string, seq<Candidate>>, order: seq<string>) {
    && (forall mac :: mac in listed ==> GroupAt(groups, mac) == CandidatesOf(tables, records, mac))
    && (forall mac :: mac in groups <==> mac in order)
    && (forall mac :: mac in groups ==> mac in listed && groups[mac] != [])
    && (forall i, j :: 0 <= i < j < |order| ==> order[i] != order[j])
  }

  method GroupCandidates(tables: Tables, records: seq<MacRecord>, listed: set<string>)
    returns (groups: map<string, seq<Candidate>>, order: seq<string>)
    ensures Grouped(tables, records, listed, groups, order)
  {
    groups, order := map[], [];
    for i := 0 to |records|
      invariant Grouped(tables, records[..i], listed, groups, order)
    {
      GroupNext(tables, records, listed, groups, order, i);
      var mac := Upper(records[i].mac);
      if mac in listed {
        if mac !in groups { order := order + [mac]; }
        groups := groups[mac := GroupAt(groups, mac) + [CandidateFrom(tables, records[i])]];
      }
    }
    assert records[..|records|] == records;
  }

  lemma GroupNext(tables: Tables, records: seq<MacRecord>, listed: set<string>,
                  groups: map<string, seq<Candidate>>, order: seq<string>, i: nat)
    requires i < |records| && Grouped(tables, records[..i], listed, groups, order)
    ensures var mac := Upper(records[i].mac);
      if mac !in listed then Grouped(tables, records[..i + 1], listed, groups, order)
      else Grouped(tables, records[..i + 1], listed,
                   groups[mac := GroupAt(groups, mac) + [CandidateFrom(tables, records[i])]],
                   if mac in groups then order else order + [mac])
  {
    NextCandidate(tables, records, i);
    forall m | m != Upper(records[i].mac) { OtherCandidates(tables, records, i, m); }
  }

  lemma NextCandidate(tables: Tables, records: seq<MacRecord>, i: nat)
    requires i < |records|
    ensures var mac := Upper(records[i].mac);
      CandidatesOf(tables, records[..i + 1], mac)
        == CandidatesOf(tables, records[..i], mac) + [CandidateFrom(tables, records[i])]
  {
    TakeNext(records, i);
    FilterAppend(records[..i], [records[i]], HasMac(Upper(records[i].mac)));
    FilterOne(records[i], HasMac(Upper(records[i].mac)));
  }

  lemma OtherCandidates(tables: Tables, records: seq<MacRecord>, i: nat, mac: string)
    requires i < |records| && mac != Upper(records[i].mac)
    ensures CandidatesOf(tables, records[..i + 1], mac) == CandidatesOf(tables, records[..i], mac)
  {
    TakeNext(records, i);
    FilterAppend(records[..i], [records[i]], HasMac(mac));
    FilterOne(records[i], HasMac(mac));
    assert Filter(records[..i + 1], HasMac(mac)) == Filter(records[..i], HasMac(mac));
  }

  // ---- One record per client ----

  /** Primary keys are unique. */
  ghost predicate DistinctIds(clients: seq<Client>) {
    forall i, j :: 0 <= i < j < |clients| ==> clients[i].id != clients[j].id
  }

  function NotFound(ids: set<int>): Client -> bool {
    (c: Client) => c.id !in ids
  }

  lemma FilterUnion(clients: seq<Client>, p: Client -> bool, q: Client -> bool, both: Client -> bool)
    requires forall c :: c in clients ==> both(c) == (p(c) || q(c)) && !(p(c) && q(c))
    ensures multiset(Filter(clients, p)) + multiset(Filter(clients, q)) == multiset(Filter(clients, both))
  {
    forall c
      ensures (multiset(Filter(clients, p)) + multiset(Filter(clients, q)))[c] == multiset(Filter(clients, both))[c]
    {
      FilterCount(clients, p, c);
      FilterCount(clients, q, c);
      FilterCount(clients, both, c);
      if c in multiset(clients) { assert c in clients; }
    }
  }

  /** Emits one record for each client of one MAC address, at the location chosen for that address. */
  method AddRecords(tables: Tables, ghost records: seq<MacRecord>, group: seq<Client>, best: Choice,
                    before: seq<ClientRecord>, foundBefore: set<int>, ghost doneBefore: seq<Client>)
    returns (result: seq<ClientRecord>, found: set<int>)
    requires before == Map(doneBefore, ToRecord(tables, records)) && foundBefore == IdsOf(doneBefore)
    requires forall c :: c in group ==>
      RecordFor(tables, records, c) == ClientRecord(c.id, best.mac, c.ip, best.at, PingOf(tables, c))
    ensures result == Map(doneBefore + group, ToRecord(tables, records)) && found == IdsOf(doneBefore + group)
  {
    result, found := before, foundBefore;
    assert doneBefore + group[..0] == doneBefore;
    for i := 0 to |group|
      invariant result == Map(doneBefore + group[..i], ToRecord(tables, records))
      invariant found == IdsOf(doneBefore + group[..i])
    {
      var c := group[i];
      EmitNext(tables, records, doneBefore, group, i);
      found := found + {c.id};
      result := result + [ClientRecord(c.id, best.mac, c.ip, best.at, PingOf(tables, c))];
    }
    assert group[..|group|] == group;
  }

  function IdsOf(clients: seq<Client>): set<int> {
    set c | c in clients :: c.id
  }

  lemma EmitNext(tables: Tables, records: seq<MacRecord>, done: seq<Client>, group: seq<Client>, i: nat)
    requires i < |group|
    ensures var next := done + group[..i + 1];
      && Map(next, ToRecord(tables, records))
           == Map(done + group[..i], ToRecord(tables, records)) + [RecordFor(tables, records, group[i])]
      && IdsOf(next) == IdsOf(done + group[..i]) + {group[i].id}
  {
    var before := done + group[..i];
    assert done + group[..i + 1] == before + [group[i]];
    MapAppend(before, [group[i]], ToRecord(tables, records));
    assert forall c :: c in before + [group[i]] <==> c in before || c == group[i];
  }

  /** Clients whose address was learned nowhere keep their ping result. */
  method AddMissing(tables: Tables, ghost records: seq<MacRecord>, missing: seq<Client>,
                    before: seq<ClientRecord>, ghost doneBefore: seq<Client>)
    returns (result: seq<ClientRecord>)
    requires before == Map(doneBefore, ToRecord(tables, records))
    requires forall c :: c in missing ==> CandidatesOf(tables, records, Upper(c.mac)) == []
    ensures result == Map(doneBefore + missing, ToRecord(tables, records))
  {
    result := before;
    assert doneBefore + missing[..0] == doneBefore;
    for i := 0 to |missing|
      invariant result == Map(doneBefore + missing[..i], ToRecord(tables, records))
    {
      var c := missing[i];
      EmitNext(tables, records, doneBefore, missing, i);
      result := result + [ClientRecord(c.id, c.mac, c.ip, NOWHERE, PingOf(tables, c))];
    }
    assert missing[..|missing|] == missing;
  }

  function Firsts(order: seq<string>, n: nat): set<string>
    requires n <= |order|
  {
    set i | 0 <= i < n :: order[i]
  }

  /** Clients of one more MAC address join those that are done. */
  lemma DoneNext(clients: seq<Client>, order: seq<string>, k: nat, done: seq<Client>)
    requires k < |order| && forall i, j :: 0 <= i < j < |order| ==> order[i] != order[j]
    requires multiset(done) == multiset(Filter(clients, WithMacIn(Firsts(order, k))))
    ensures multiset(done + Filter(clients, WithMac(order[k])))
      == multiset(Filter(clients, WithMacIn(Firsts(order, k + 1))))
  {
    assert order[k] !in Firsts(order, k);
    assert Firsts(order, k + 1) == Firsts(order, k) + {order[k]};
    FilterUnion(clients, WithMacIn(Firsts(order, k)), WithMac(order[k]), WithMacIn(Firsts(order, k + 1)));
  }

  function All(): Client -> bool {
    (c: Client) => true
  }

  lemma FoundIds(clients: seq<Client>, macs: set<string>, done: seq<Client>, c: Client)
    requires DistinctIds(clients) && c in clients
    requires multiset(done) == multiset(Filter(clients, WithMacIn(macs)))
    ensures c.id in IdsOf(done) <==> Upper(c.mac) in macs
  {
    forall d ensures d in done <==> d in clients && Upper(d.mac) in macs {
      FilterMember(clients, WithMacIn(macs), d);
      assert d in done <==> d in multiset(done);
    }
    if c.id in IdsOf(done) {
      var d :| d in done && d.id == c.id;
      var i :| 0 <= i < |clients| && clients[i] == c;
      var j :| 0 <= j < |clients| && clients[j] == d;
      assert i == j;
    }
  }

  /** Those not found are exactly the rest. */
  lemma MissingAreRest(clients: seq<Client>, macs: set<string>, done: seq<Client>)
    requires DistinctIds(clients)
    requires multiset(done) == multiset(Filter(clients, WithMacIn(macs)))
    ensures multiset(done + Filter(clients, NotFound(IdsOf(done)))) == multiset(clients)
    ensures forall c :: c in Filter(clients, NotFound(IdsOf(done))) ==> c in clients && Upper(c.mac) !in macs
  {
    forall c | c in clients ensures NotFound(IdsOf(done))(c) <==> !WithMacIn(macs)(c) {
      FoundIds(clients, macs, done, c);
    }
    FilterUnion(clients, WithMacIn(macs), NotFound(IdsOf(done)), All());
    FilterAll(clients, All());
    forall c | c in Filter(clients, NotFound(IdsOf(done))) ensures c in clients && Upper(c.mac) !in macs {
      FilterMember(clients, NotFound(IdsOf(done)), c);
    }
  }

  /** The records of all clients whose address was learned somewhere. */
  method AddFound(tables: Tables, ghost records: seq<MacRecord>, ghost clients: seq<Client>,
                  groups: map<string, seq<Client>>, order: seq<string>, best: map<string, Choice>)
    returns (result: seq<ClientRecord>, found: set<int>, ghost done: seq<Client>)
    requires forall i, j :: 0 <= i < j < |order| ==> order[i] != order[j]
    requires forall mac :: mac in order ==> mac in groups && mac in best && groups[mac] == Filter(clients, WithMac(mac))
    requires forall mac :: mac in order ==> ChoiceFor(tables, records, mac, best[mac])
    ensures result == Map(done, ToRecord(tables, records)) && found == IdsOf(done)
    ensures multiset(done) == multiset(Filter(clients, WithMacIn(Firsts(order, |order|))))
  {
    result, found, done := [], {}, [];
    NoneDone(clients, order);
    for k := 0 to |order|
      invariant result == Map(done, ToRecord(tables, records)) && found == IdsOf(done)
      invariant multiset(done) == multiset(Filter(clients, WithMacIn(Firsts(order, k))))
    {
      var mac := order[k];
      BestForGroup(tables, records, clients, mac, best[mac]);
      DoneNext(clients, order, k, done);
      result, found := AddRecords(tables, records, groups[mac], best[mac], result, found, done);
      done := done + groups[mac];
    }
  }

  /**
   The record assembly of `collect_client_data`: the records of the clients, in some order; each
   client has its own, whatever MAC addresses are shared or missing.
   */
  method Assemble(tables: Tables, clients: seq<Client>, records: seq<MacRecord>) returns (result: seq<ClientRecord>)
    requires DistinctIds(clients)
    ensures multiset(result) == multiset(Map(clients, ToRecord(tables, records)))
  {
    var groups := GroupClients(clients);
    var counts := CountMacs(records);
    var candidates, order := GroupCandidates(tables, records, groups.Keys);
    forall mac | mac in groups ensures groups[mac] == Filter(clients, WithMac(mac)) {
      assert groups[mac] == GroupAt(groups, mac);
    }
    forall mac | mac in order ensures candidates[mac] == CandidatesOf(tables, records, mac) {
      assert candidates[mac] == GroupAt(candidates, mac);
    }
    var best := ChooseBest(tables, records, Ports(tables.neighbours, counts, tables.mbps), candidates, order);
    var found: set<int>;
    ghost var done: seq<Client>;
    result, found, done := AddFound(tables, records, clients, groups, order, best);
    var missing := Filter(clients, NotFound(found));
    MissingAreRest(clients, Firsts(order, |order|), done);
    forall c | c in missing ensures CandidatesOf(tables, records, Upper(c.mac)) == [] {
      NotInOrder(clients, groups, candidates, order, c);
    }
    result := AddMissing(tables, records, missing, result, done);
    MapReordered(done + missing, clients, ToRecord(tables, records));
  }

  function Without<T>(s: seq<T>, k: nat): seq<T>
    requires k < |s|
  {
    s[..k] + s[k + 1..]
  }

  lemma WithoutOne<T>(s: seq<T>, k: nat)
    requires k < |s|
    ensures multiset(s) == multiset(Without(s, k)) + multiset{s[k]}
  {
    assert s == s[..k] + ([s[k]] + s[k + 1..]);
  }

  lemma MapWithout(s: seq<Client>, k: nat, f: Client -> ClientRecord)
    requires k < |s|
    ensures Without(Map(s, f), k) == Map(Without(s, k), f)
  {
  }

  /** Reordering the arguments reorders the results. */
  lemma {:induction false} MapReordered(a: seq<Client>, b: seq<Client>, f: Client -> ClientRecord)
    requires multiset(a) == multiset(b)
    ensures multiset(Map(a, f)) == multiset(Map(b, f))
  {
    if a == [] {
      assert |b| == |multiset(b)| == |multiset(a)| == 0;
    } else {
      assert a[0] in multiset(b);
      var k :| 0 <= k < |b| && b[k] == a[0];
      WithoutOne(a, 0);
      WithoutOne(b, k);
      assert multiset(Without(a, 0)) == multiset(a) - multiset{a[0]} == multiset(Without(b, k));
      MapReordered(Without(a, 0), Without(b, k), f);
      WithoutOne(Map(a, f), 0);
      WithoutOne(Map(b, f), k);
      MapWithout(a, 0, f);
      MapWithout(b, k, f);
    }
  }

  /** `collect_client_data` from the stored rows to the records: every client gets its own. */
  method CollectRecords(s: Sources, clients: seq<Client>, records: seq<MacRecord>) returns (result: seq<ClientRecord>)
    requires DistinctIds(clients)
    ensures multiset(result) == multiset(Map(clients, ToRecord(TablesOf(s), records)))
    ensures forall c :: c in clients ==> exists r :: r in result && Told(s, records, c, r)
  {
    var tables := BuildTables(s);
    result := Assemble(tables, clients, records);
    forall c | c in clients ensures exists r :: r in result && Told(s, records, c, r) {
      var i :| 0 <= i < |clients| && clients[i] == c;
      var r := Map(clients, ToRecord(TablesOf(s), records))[i];
      assert r in multiset(result);
      RecordTold(s, records, c);
    }
  }

  /** Learned at the place of this MAC record, with what was stored last of its port. */
  ghost predicate LearnedAt(s: Sources, m: MacRecord, r: ClientRecord) {
    var port := (m.switch, m.iface);
    var status := LastStatus(s.status, port);
    && r.mac == m.mac && r.at.switch == Some(m.switch) && r.at.iface == Some(m.iface) && r.at.vlan == m.vlan
    && r.at.acl == AclAt(s, port)
    && r.at.speed == (if status.Some? then status.value.speed else None)
    && r.at.duplex == (if status.Some? then status.value.duplex else None)
    && r.at.link == (if status.Some? then status.value.link else None)
  }

  /** A record of the client, in terms of the stored rows. */
  ghost predicate Told(s: Sources, records: seq<MacRecord>, c: Client, r: ClientRecord) {
    && r.clientId == c.id && r.ip == c.ip
    && r.ping == (if NonEmpty(c.ip) then LastPing(s.pings, c.ip.value) else None)
    && (r.at == NOWHERE || exists m :: m in records && Upper(m.mac) == Upper(c.mac) && LearnedAt(s, m, r))
  }

  lemma RecordTold(s: Sources, records: seq<MacRecord>, c: Client)
    ensures Told(s, records, c, RecordFor(TablesOf(s), records, c))
  {
    var tables, r := TablesOf(s), RecordFor(TablesOf(s), records, c);
    RecordMeaning(tables, records, c);
    if NonEmpty(c.ip) { TablesMeaning(s, ("", ""), c.ip.value); }
    if r.at != NOWHERE {
      var m :| m in records && Upper(m.mac) == Upper(c.mac) && LocatedBy(tables, m, r);
      TablesMeaning(s, (m.switch, m.iface), "");
      assert LearnedAt(s, m, r);
    }
  }

  lemma NoneDone(clients: seq<Client>, order: seq<string>)
    ensures Filter(clients, WithMacIn(Firsts(order, 0))) == []
  {
    FilterNone(clients, WithMacIn(Firsts(order, 0)));
  }

  lemma NotInOrder(clients: seq<Client>, groups: map<string, seq<Client>>,
                   candidates: map<string, seq<Candidate>>, order: seq<string>, c: Client)
    requires forall mac :: GroupAt(groups, mac) == Filter(clients, WithMac(mac))
    requires forall mac :: mac in candidates <==> mac in order
    requires c in clients && Upper(c.mac) !in Firsts(order, |order|)
    ensures Upper(c.mac) in groups && GroupAt(candidates, Upper(c.mac)) == []
  {
    FilterMember(clients, WithMac(Upper(c.mac)), c);
    assert GroupAt(groups, Upper(c.mac)) != [];
  }

  ghost predicate ChoiceFor(tables: Tables, records: seq<MacRecord>, mac: string, choice: Choice) {
    var candidates := CandidatesOf(tables, records, mac);
    candidates != [] && choice == SelectBest(PortsOf(tables, records), candidates)
  }

  lemma BestForGroup(tables: Tables, records: seq<MacRecord>, clients: seq<Client>, mac: string, best: Choice)
    requires ChoiceFor(tables, records, mac, best)
    ensures forall c :: c in Filter(clients, WithMac(mac)) ==>
      RecordFor(tables, records, c) == ClientRecord(c.id, best.mac, c.ip, best.at, PingOf(tables, c))
  {
    forall c | c in Filter(clients, WithMac(mac)) ensures Upper(c.mac) == mac {
      FilterMember(clients, WithMac(mac), c);
    }
  }

  method ChooseBest(tables: Tables, ghost records: seq<MacRecord>, ports: Ports,
                    candidates: map<string, seq<Candidate>>, order: seq<string>)
    returns (best: map<string, Choice>)
    requires ports == PortsOf(tables, records)
    requires forall mac :: mac in order ==> mac in candidates && candidates[mac] != []
    requires forall mac :: mac in order ==> candidates[mac] == CandidatesOf(tables, records, mac)
    ensures forall mac :: mac in order ==> mac in best && ChoiceFor(tables, records, mac, best[mac])
  {
    best := map mac | mac in order :: SelectBest(ports, candidates[mac]);
  }

  /** Exactly one record per client, and the right one. */
  lemma OneRecordPerClient(tables: Tables, records: seq<MacRecord>, clients: seq<Client>,
                           result: seq<ClientRecord>, c: Client) returns (i: nat)
    requires DistinctIds(clients) && c in clients
    requires multiset(result) == multiset(Map(clients, ToRecord(tables, records)))
    ensures |result| == |clients|
    ensures i < |result| && result[i] == RecordFor(tables, records, c)
    ensures forall j :: 0 <= j < |result| && j != i ==> result[j].clientId != c.id
  {
    var all := Map(clients, ToRecord(tables, records));
    assert |result| == |multiset(result)| == |multiset(all)| == |all|;
    var k :| 0 <= k < |clients| && clients[k] == c;
    assert all[k] in multiset(result);
    i :| 0 <= i < |result| && result[i] == all[k];
    forall j | 0 <= j < |result| && j != i ensures result[j].clientId != c.id {
      if result[j].clientId == c.id {
        assert result[j] in multiset(all);
        var m :| 0 <= m < |all| && all[m] == result[j];
        assert clients[m].id == clients[k].id && m == k;
        Twice(result, i, j);
        OnceOnly(all, k);
      }
    }
  }

  lemma Twice<T>(s: seq<T>, i: nat, j: nat)
    requires i < |s| && j < |s| && i != j && s[i] == s[j]
    ensures multiset(s)[s[i]] >= 2
  {
    var lo, hi := if i < j then i else j, if i < j then j else i;
    assert s == s[..hi] + s[hi..];
    assert s[lo] in s[..hi] && s[hi] in s[hi..];
  }

  lemma OnceOnly(all: seq<ClientRecord>, k: nat)
    requires k < |all| && forall i, j :: 0 <= i < j < |all| ==> all[i].clientId != all[j].clientId
    ensures multiset(all)[all[k]] == 1
  {
    assert all == all[..k] + [all[k]] + all[k + 1..];
    assert all[k] !in all[..k] && all[k] !in all[k + 1..];
  }
}
