/**
 Where a client is: the five-rule choice among the switch ports that learned its MAC address
 (`_select_best_candidate` in app/services/client_collection_service.py).

 The cascade of filters is a lexicographic minimum.
 */
module CandidateSelection {
  import opened Wrappers
  import opened Seqs

  /** One port on which the MAC address was learned, with what is known of the port. */
  datatype Candidate = Candidate(
    mac: string, switch: string, iface: string, vlan: Option<int>, speed: Option<string>,
    duplex: Option<string>, link: Option<string>, acl: Option<string>)

  /** The location fields of a client record. */
  datatype Location = Location(
    switch: Option<string>, iface: Option<string>, vlan: Option<int>, speed: Option<string>,
    duplex: Option<string>, link: Option<string>, acl: Option<string>)

  const NOWHERE := Location(None, None, None, None, None, None, None)

  datatype Choice = Choice(mac: string, at: Location)

  function Of(c: Candidate): Choice {
    Choice(c.mac, Location(Some(c.switch), Some(c.iface), c.vlan, c.speed, c.duplex, c.link, c.acl))
  }

  /** What the rules look up; `mbps` reads a speed such as "2.5G". */
  datatype Ports = Ports(
    neighbours: set<(string, string)>, macCount: map<(string, string), nat>, mbps: string -> Option<int>)

  function PortOf(c: Candidate): (string, string) {
    (c.switch, c.iface)
  }

  const LAG_PREFIXES := ["BAGG", "Po", "BE", "AE", "BOND"]

  /** `is_port_channel` */
  predicate IsPortChannel(name: string) {
    exists i :: 0 <= i < |LAG_PREFIXES| && LAG_PREFIXES[i] <= name
  }

  function Speed(ports: Ports, c: Candidate): Option<int> {
    if NonEmpty(c.speed) then ports.mbps(c.speed.value) else None
  }

  function MacCount(ports: Ports, c: Candidate): nat {
    if PortOf(c) in ports.macCount then ports.macCount[PortOf(c)] else 0
  }

  // ---- The code ----

  function HasAcl(): Candidate -> bool {
    (c: Candidate) => c.acl.Some?
  }

  function NotLag(): Candidate -> bool {
    (c: Candidate) => !IsPortChannel(c.iface)
  }

  function NoNeighbour(ports: Ports): Candidate -> bool {
    (c: Candidate) => PortOf(c) !in ports.neighbours
  }

  function HasSpeed(ports: Ports): Candidate -> bool {
    (c: Candidate) => Speed(ports, c).Some?
  }

  function SpeedIs(ports: Ports, mbps: int): Candidate -> bool {
    (c: Candidate) => Speed(ports, c) == Some(mbps)
  }

  function MacCountIs(ports: Ports, n: int): Candidate -> bool {
    (c: Candidate) => MacCount(ports, c) == n
  }

  /** The elements that satisfy the rule, or all of them if none does. */
  function Prefer<T>(s: seq<T>, rule: T -> bool): (preferred: seq<T>)
    ensures s != [] ==> preferred != []
  {
    if Filter(s, rule) == [] then s else Filter(s, rule)
  }

  function MinUpTo(s: seq<int>, n: nat): (m: int)
    requires 0 < n <= |s|
    ensures exists i :: 0 <= i < n && s[i] == m
    ensures forall i :: 0 <= i < n ==> m <= s[i]
  {
    if n == 1 then s[0] else if s[n - 1] < MinUpTo(s, n - 1) then s[n - 1] else MinUpTo(s, n - 1)
  }

  function Min(s: seq<int>): (m: int)
    requires s != []
    ensures m in s && forall x :: x in s ==> m <= x
  {
    MinUpTo(s, |s|)
  }

  function SpeedAt(ports: Ports): Candidate -> int {
    (c: Candidate) => if Speed(ports, c).Some? then Speed(ports, c).value else 0
  }

  function MacCountAt(ports: Ports): Candidate -> int {
    (c: Candidate) => MacCount(ports, c)
  }

  function Speeds(ports: Ports, s: seq<Candidate>): seq<int> {
    Map(s, SpeedAt(ports))
  }

  function MacCounts(ports: Ports, s: seq<Candidate>): seq<int> {
    Map(s, MacCountAt(ports))
  }

  /** Rules 4 and 5 and the fallback. */
  function SelectBySpeed(ports: Ports, remaining: seq<Candidate>): Choice
    requires remaining != []
  {
    var withSpeed := Filter(remaining, HasSpeed(ports));
    if withSpeed == [] then SelectByMacCount(ports, remaining)
    else
      var slowest := Filter(withSpeed, SpeedIs(ports, Min(Speeds(ports, withSpeed))));
      SlowestExists(ports, remaining);
      if |slowest| == 1 then Of(slowest[0])
      else SelectByMacCount(ports, slowest)
  }

  function SelectByMacCount(ports: Ports, remaining: seq<Candidate>): Choice
    requires remaining != []
  {
    var fewest := Filter(remaining, MacCountIs(ports, Min(MacCounts(ports, remaining))));
    if |fewest| == 1 then Of(fewest[0]) else Choice(remaining[0].mac, NOWHERE)
  }

  /** `_select_best_candidate` */
  function SelectBest(ports: Ports, candidates: seq<Candidate>): Choice
    requires candidates != []
  {
    if |candidates| == 1 then Of(candidates[0])
    else
      var withAcl := Prefer(candidates, HasAcl());
      if |withAcl| == 1 then Of(withAcl[0])
      else
        var notLag := Prefer(withAcl, NotLag());
        if |notLag| == 1 then Of(notLag[0])
        else
          var noNeighbour := Prefer(notLag, NoNeighbour(ports));
          if |noNeighbour| == 1 then Of(noNeighbour[0]) else SelectBySpeed(ports, noNeighbour)
  }

  lemma SlowestExists(ports: Ports, remaining: seq<Candidate>)
    requires Filter(remaining, HasSpeed(ports)) != []
    ensures var withSpeed := Filter(remaining, HasSpeed(ports));
      Filter(withSpeed, SpeedIs(ports, Min(Speeds(ports, withSpeed)))) != []
  {
    var withSpeed := Filter(remaining, HasSpeed(ports));
    var m := Min(Speeds(ports, withSpeed));
    var i :| 0 <= i < |withSpeed| && Speeds(ports, withSpeed)[i] == m;
    FilterMember(remaining, HasSpeed(ports), withSpeed[i]);
    FilterMember(withSpeed, SpeedIs(ports, m), withSpeed[i]);
  }

  // ---- The specification ----

  /** In order of importance: ACL missing, LAG, has a neighbour, speed missing, speed, MAC addresses. */
  function Rank(ports: Ports, c: Candidate): (rank: seq<int>)
    ensures |rank| == 6
  {
    [if c.acl.Some? then 0 else 1,
     if IsPortChannel(c.iface) then 1 else 0,
     if PortOf(c) in ports.neighbours then 1 else 0,
     if Speed(ports, c).Some? then 0 else 1,
     if Speed(ports, c).Some? then Speed(ports, c).value else 0,
     MacCount(ports, c)]
  }

  predicate Same(a: seq<int>, b: seq<int>, n: nat)
    requires n <= |a| && n <= |b|
  {
    forall i :: 0 <= i < n ==> a[i] == b[i]
  }

  /** Lexicographically smaller on the first `n` components. */
  predicate Below(a: seq<int>, b: seq<int>, n: nat)
    requires n <= |a| && n <= |b|
  {
    exists i :: 0 <= i < n && Same(a, b, i) && a[i] < b[i]
  }

  function Unbeaten(ports: Ports, candidates: seq<Candidate>, n: nat): Candidate -> bool
    requires n <= 6
  {
    (c: Candidate) => forall d :: d in candidates ==> !Below(Rank(ports, d), Rank(ports, c), n)
  }

  /** The candidates of least rank. */
  function Best(ports: Ports, candidates: seq<Candidate>): seq<Candidate> {
    Filter(candidates, Unbeaten(ports, candidates, 6))
  }

  // ---- One rule, one component ----

  lemma BelowNext(a: seq<int>, b: seq<int>, n: nat)
    requires n < |a| && n < |b|
    ensures Below(a, b, n + 1) <==> Below(a, b, n) || (Same(a, b, n) && a[n] < b[n])
  {
  }

  lemma {:induction false} BelowTotal(a: seq<int>, b: seq<int>, n: nat)
    requires n <= |a| && n <= |b|
    ensures Below(a, b, n) || Below(b, a, n) || Same(a, b, n)
  {
    if n > 0 {
      BelowTotal(a, b, n - 1);
      BelowNext(a, b, n - 1);
      BelowNext(b, a, n - 1);
    }
  }

  lemma BelowSame(d: seq<int>, a: seq<int>, b: seq<int>, n: nat)
    requires n <= |a| && n <= |b| && n <= |d|
    requires Same(a, b, n) && Below(d, b, n)
    ensures Below(d, a, n)
  {
    var i :| 0 <= i < n && Same(d, b, i) && d[i] < b[i];
    assert Same(d, a, i);
  }

  /** The candidates left when the first `n` components have been compared. */
  function Left(ports: Ports, candidates: seq<Candidate>, n: nat): seq<Candidate>
    requires n <= 6
  {
    Filter(candidates, Unbeaten(ports, candidates, n))
  }

  predicate AtMost(ports: Ports, c: Candidate, d: Candidate, n: nat)
    requires n < 6
  {
    Rank(ports, c)[n] <= Rank(ports, d)[n]
  }

  lemma UnbeatenNext(ports: Ports, candidates: seq<Candidate>, n: nat, c: Candidate)
    requires n < 6 && c in candidates
    ensures Unbeaten(ports, candidates, n + 1)(c) <==>
      Unbeaten(ports, candidates, n)(c) && forall d :: d in Left(ports, candidates, n) ==> AtMost(ports, c, d, n)
  {
    if Unbeaten(ports, candidates, n + 1)(c) {
      forall d | d in candidates ensures !Below(Rank(ports, d), Rank(ports, c), n) {
        BelowNext(Rank(ports, d), Rank(ports, c), n);
      }
      forall d | d in Left(ports, candidates, n) ensures AtMost(ports, c, d, n) {
        FilterMember(candidates, Unbeaten(ports, candidates, n), d);
        BelowTotal(Rank(ports, d), Rank(ports, c), n);
        BelowNext(Rank(ports, d), Rank(ports, c), n);
      }
    } else if Unbeaten(ports, candidates, n)(c) {
      var d :| d in candidates && Below(Rank(ports, d), Rank(ports, c), n + 1);
      BelowNext(Rank(ports, d), Rank(ports, c), n);
      forall e | e in candidates ensures !Below(Rank(ports, e), Rank(ports, d), n) {
        if Below(Rank(ports, e), Rank(ports, d), n) { BelowSame(Rank(ports, e), Rank(ports, c), Rank(ports, d), n); }
      }
      FilterMember(candidates, Unbeaten(ports, candidates, n), d);
      assert !AtMost(ports, c, d, n);
    }
  }

  /** A rule that picks the least `n`-th component of those left compares one component more. */
  lemma Stage(ports: Ports, candidates: seq<Candidate>, n: nat, rule: Candidate -> bool)
    requires n < 6
    requires forall c :: c in Left(ports, candidates, n) ==>
      (rule(c) <==> forall d :: d in Left(ports, candidates, n) ==> AtMost(ports, c, d, n))
    ensures Filter(Left(ports, candidates, n), rule) == Left(ports, candidates, n + 1)
  {
    forall c | c in candidates
      ensures Unbeaten(ports, candidates, n + 1)(c) == (Unbeaten(ports, candidates, n)(c) && rule(c))
    {
      UnbeatenNext(ports, candidates, n, c);
      FilterMember(candidates, Unbeaten(ports, candidates, n), c);
    }
    FilterBoth(candidates, Unbeaten(ports, candidates, n), rule, Unbeaten(ports, candidates, n + 1));
  }

  function Anyone(): Candidate -> bool {
    (c: Candidate) => true
  }

  /** When the component is the same for all that are left, nobody is dropped. */
  lemma StageAll(ports: Ports, candidates: seq<Candidate>, n: nat)
    requires n < 6
    requires forall c, d :: c in Left(ports, candidates, n) && d in Left(ports, candidates, n) ==>
      AtMost(ports, c, d, n)
    ensures Left(ports, candidates, n + 1) == Left(ports, candidates, n)
  {
    Stage(ports, candidates, n, Anyone());
    FilterAll(Left(ports, candidates, n), Anyone());
  }

  /** Rules 1 to 3. */
  lemma PreferStage(ports: Ports, candidates: seq<Candidate>, n: nat, rule: Candidate -> bool)
    requires n < 6
    requires forall c :: c in Left(ports, candidates, n) ==> Rank(ports, c)[n] == if rule(c) then 0 else 1
    ensures Prefer(Left(ports, candidates, n), rule) == Left(ports, candidates, n + 1)
  {
    var left := Left(ports, candidates, n);
    if Filter(left, rule) == [] {
      forall c | c in left ensures !rule(c) { FilterMember(left, rule, c); }
      StageAll(ports, candidates, n);
    } else {
      var chosen := Filter(left, rule)[0];
      FilterMember(left, rule, chosen);
      forall c | c in left ensures rule(c) <==> forall d :: d in left ==> AtMost(ports, c, d, n) {
        if !rule(c) { assert !AtMost(ports, c, chosen, n); }
      }
      Stage(ports, candidates, n, rule);
    }
  }

  /** Rules 4 and 5: those whose component equals the least value. */
  lemma LeastStage(ports: Ports, candidates: seq<Candidate>, n: nat, rule: Candidate -> bool, least: int)
    requires n < 6
    requires forall c :: c in Left(ports, candidates, n) ==>
      (rule(c) <==> Rank(ports, c)[n] == least) && least <= Rank(ports, c)[n]
    requires exists c :: c in Left(ports, candidates, n) && Rank(ports, c)[n] == least
    ensures Filter(Left(ports, candidates, n), rule) == Left(ports, candidates, n + 1)
  {
    var left := Left(ports, candidates, n);
    var chosen :| chosen in left && Rank(ports, chosen)[n] == least;
    forall c | c in left ensures rule(c) <==> forall d :: d in left ==> AtMost(ports, c, d, n) {
      if !rule(c) { assert !AtMost(ports, c, chosen, n); }
    }
    Stage(ports, candidates, n, rule);
  }

  /** Once a single candidate is left, the remaining rules cannot change that. */
  lemma {:induction false} OneLeft(ports: Ports, candidates: seq<Candidate>, n: nat)
    requires n <= 6 && |Left(ports, candidates, n)| == 1
    ensures Best(ports, candidates) == Left(ports, candidates, n)
    decreases 6 - n
  {
    if n < 6 {
      StageAll(ports, candidates, n);
      OneLeft(ports, candidates, n + 1);
    }
  }

  lemma NobodyBeaten(ports: Ports, candidates: seq<Candidate>)
    ensures Left(ports, candidates, 0) == candidates
  {
    FilterAll(candidates, Unbeaten(ports, candidates, 0));
  }

  // ---- The whole cascade ----

  ghost predicate IsChoice(ports: Ports, candidates: seq<Candidate>, choice: Choice) {
    var best := Best(ports, candidates);
    if |best| == 1 then choice == Of(best[0])
    else choice.at == NOWHERE && exists c :: c in candidates && c.mac == choice.mac
  }

  /** The least of the values of `f` on a list is attained and bounds the others. */
  lemma MinOfMap(s: seq<Candidate>, f: Candidate -> int)
    requires s != []
    ensures exists c :: c in s && f(c) == Min(Map(s, f))
    ensures forall c :: c in s ==> Min(Map(s, f)) <= f(c)
  {
    var values := Map(s, f);
    var least :| 0 <= least < |s| && values[least] == Min(values);
    assert s[least] in s && f(s[least]) == Min(values);
    forall c | c in s ensures Min(values) <= f(c) {
      var i :| 0 <= i < |s| && s[i] == c;
      assert values[i] in values;
    }
  }

  lemma FewestAreBest(ports: Ports, candidates: seq<Candidate>)
    requires Left(ports, candidates, 5) != []
    ensures var left := Left(ports, candidates, 5);
      Filter(left, MacCountIs(ports, Min(MacCounts(ports, left)))) == Best(ports, candidates)
  {
    var left := Left(ports, candidates, 5);
    MinOfMap(left, MacCountAt(ports));
    LeastStage(ports, candidates, 5, MacCountIs(ports, Min(MacCounts(ports, left))), Min(MacCounts(ports, left)));
  }

  lemma SelectByMacCountIsChoice(ports: Ports, candidates: seq<Candidate>)
    requires Left(ports, candidates, 5) != []
    ensures IsChoice(ports, candidates, SelectByMacCount(ports, Left(ports, candidates, 5)))
  {
    FewestAreBest(ports, candidates);
    FilterMember(candidates, Unbeaten(ports, candidates, 5), Left(ports, candidates, 5)[0]);
  }

  lemma SlowestAreLeft(ports: Ports, candidates: seq<Candidate>)
    requires Left(ports, candidates, 4) != [] && forall c :: c in Left(ports, candidates, 4) ==> Speed(ports, c).Some?
    ensures var left := Left(ports, candidates, 4);
      Filter(left, SpeedIs(ports, Min(Speeds(ports, left)))) == Left(ports, candidates, 5)
  {
    var left := Left(ports, candidates, 4);
    MinOfMap(left, SpeedAt(ports));
    LeastStage(ports, candidates, 4, SpeedIs(ports, Min(Speeds(ports, left))), Min(Speeds(ports, left)));
  }

  lemma NoSpeedAllLeft(ports: Ports, candidates: seq<Candidate>)
    requires Filter(Left(ports, candidates, 3), HasSpeed(ports)) == []
    ensures Left(ports, candidates, 5) == Left(ports, candidates, 3)
  {
    var left := Left(ports, candidates, 3);
    PreferStage(ports, candidates, 3, HasSpeed(ports));
    assert Left(ports, candidates, 4) == left;
    forall c | c in left ensures Rank(ports, c)[4] == 0 { FilterMember(left, HasSpeed(ports), c); }
    StageAll(ports, candidates, 4);
  }

  lemma NoSpeedIsChoice(ports: Ports, candidates: seq<Candidate>)
    requires Left(ports, candidates, 3) != [] && Filter(Left(ports, candidates, 3), HasSpeed(ports)) == []
    ensures IsChoice(ports, candidates, SelectByMacCount(ports, Left(ports, candidates, 3)))
  {
    NoSpeedAllLeft(ports, candidates);
    SelectByMacCountIsChoice(ports, candidates);
  }

  lemma WithSpeedAreLeft(ports: Ports, candidates: seq<Candidate>)
    requires Filter(Left(ports, candidates, 3), HasSpeed(ports)) != []
    ensures var withSpeed := Filter(Left(ports, candidates, 3), HasSpeed(ports));
      && Left(ports, candidates, 5) != []
      && Filter(withSpeed, SpeedIs(ports, Min(Speeds(ports, withSpeed)))) == Left(ports, candidates, 5)
  {
    var left := Left(ports, candidates, 3);
    PreferStage(ports, candidates, 3, HasSpeed(ports));
    forall c | c in Left(ports, candidates, 4) ensures Speed(ports, c).Some? { FilterMember(left, HasSpeed(ports), c); }
    SlowestAreLeft(ports, candidates);
    SlowestExists(ports, left);
  }

  lemma SelectBySpeedIsChoice(ports: Ports, candidates: seq<Candidate>)
    requires Left(ports, candidates, 3) != []
    ensures IsChoice(ports, candidates, SelectBySpeed(ports, Left(ports, candidates, 3)))
  {
    if Filter(Left(ports, candidates, 3), HasSpeed(ports)) == [] {
      NoSpeedIsChoice(ports, candidates);
    } else {
      WithSpeedAreLeft(ports, candidates);
      if |Left(ports, candidates, 5)| == 1 {
        OneLeft(ports, candidates, 5);
      } else {
        SelectByMacCountIsChoice(ports, candidates);
      }
    }
  }

  lemma AclStage(ports: Ports, candidates: seq<Candidate>)
    ensures Prefer(candidates, HasAcl()) == Left(ports, candidates, 1)
  {
    NobodyBeaten(ports, candidates);
    PreferStage(ports, candidates, 0, HasAcl());
  }

  lemma LagStage(ports: Ports, candidates: seq<Candidate>)
    ensures Prefer(Left(ports, candidates, 1), NotLag()) == Left(ports, candidates, 2)
  {
    PreferStage(ports, candidates, 1, NotLag());
  }

  lemma NeighbourStage(ports: Ports, candidates: seq<Candidate>)
    ensures Prefer(Left(ports, candidates, 2), NoNeighbour(ports)) == Left(ports, candidates, 3)
  {
    PreferStage(ports, candidates, 2, NoNeighbour(ports));
  }

  lemma OneLeftIsChoice(ports: Ports, candidates: seq<Candidate>, n: nat)
    requires n <= 6 && |Left(ports, candidates, n)| == 1
    ensures IsChoice(ports, candidates, Of(Left(ports, candidates, n)[0]))
  {
    OneLeft(ports, candidates, n);
  }

  /**
   The cascade returns the one candidate of least rank, and no location at all when several
   candidates share the least rank.
   */
  lemma CascadeIsArgmin(ports: Ports, candidates: seq<Candidate>)
    requires candidates != []
    ensures IsChoice(ports, candidates, SelectBest(ports, candidates))
  {
    NobodyBeaten(ports, candidates);
    AclStage(ports, candidates);
    LagStage(ports, candidates);
    NeighbourStage(ports, candidates);
    if |candidates| == 1 {
      OneLeftIsChoice(ports, candidates, 0);
    } else if |Left(ports, candidates, 1)| == 1 {
      OneLeftIsChoice(ports, candidates, 1);
    } else if |Left(ports, candidates, 2)| == 1 {
      OneLeftIsChoice(ports, candidates, 2);
    } else if |Left(ports, candidates, 3)| == 1 {
      OneLeftIsChoice(ports, candidates, 3);
    } else {
      SelectBySpeedIsChoice(ports, candidates);
    }
  }

  // ---- What least rank means, and independence of order ----

  /** The best candidates exist, agree on the rank, and everybody else ranks above them. */
  lemma BestMeaning(ports: Ports, candidates: seq<Candidate>, best: Candidate, other: Candidate)
    requires best in Best(ports, candidates) && other in candidates
    ensures if other in Best(ports, candidates) then Rank(ports, best) == Rank(ports, other)
            else Below(Rank(ports, best), Rank(ports, other), 6)
  {
    var b, o := Rank(ports, best), Rank(ports, other);
    FilterMember(candidates, Unbeaten(ports, candidates, 6), best);
    FilterMember(candidates, Unbeaten(ports, candidates, 6), other);
    BelowTotal(b, o, 6);
    if other !in Best(ports, candidates) {
      var d :| d in candidates && Below(Rank(ports, d), o, 6);
      if Same(b, o, 6) { BelowSame(Rank(ports, d), b, o, 6); }
    }
  }

  lemma SameBest(ports: Ports, a: seq<Candidate>, b: seq<Candidate>)
    requires multiset(a) == multiset(b)
    ensures multiset(Best(ports, a)) == multiset(Best(ports, b))
  {
    forall c ensures multiset(Best(ports, a))[c] == multiset(Best(ports, b))[c] {
      FilterCount(a, Unbeaten(ports, a, 6), c);
      FilterCount(b, Unbeaten(ports, b, 6), c);
      assert forall d :: d in a <==> d in multiset(a);
      assert forall d :: d in b <==> d in multiset(b);
    }
  }

  lemma SameSingle<T>(x: seq<T>, y: seq<T>)
    requires multiset(x) == multiset(y)
    ensures |x| == |y| && (|x| == 1 ==> x[0] == y[0])
  {
    assert |x| == |multiset(x)| == |multiset(y)| == |y|;
    if |x| == 1 { assert x[0] in multiset(y); }
  }

  /** The order in which the switches reported the address does not matter to the location. */
  lemma OrderIrrelevant(ports: Ports, a: seq<Candidate>, b: seq<Candidate>)
    requires a != [] && b != [] && multiset(a) == multiset(b)
    ensures SelectBest(ports, a).at == SelectBest(ports, b).at
  {
    CascadeIsArgmin(ports, a);
    CascadeIsArgmin(ports, b);
    SameBest(ports, a, b);
    SameSingle(Best(ports, a), Best(ports, b));
  }

  // ---- The rules in plain terms ----

  /** One of the five ways an aggregated link is named. */
  predicate Aggregated(name: string) {
    "BAGG" <= name || "Po" <= name || "BE" <= name || "AE" <= name || "BOND" <= name
  }

  lemma PortChannelIsAggregated(name: string)
    ensures IsPortChannel(name) <==> Aggregated(name)
  {
    assert LAG_PREFIXES[0] == "BAGG" && LAG_PREFIXES[1] == "Po" && LAG_PREFIXES[2] == "BE";
    assert LAG_PREFIXES[3] == "AE" && LAG_PREFIXES[4] == "BOND";
  }

  /** What a non-empty speed reads as. */
  function Mbps(ports: Ports, c: Candidate): Option<int> {
    if c.speed.None? || c.speed.value == "" then None else ports.mbps(c.speed.value)
  }

  function Addresses(ports: Ports, c: Candidate): int {
    if (c.switch, c.iface) in ports.macCount then ports.macCount[(c.switch, c.iface)] else 0
  }

  /** The first rule that tells the two apart is in favour of `c`. */
  predicate Better(ports: Ports, c: Candidate, d: Candidate) {
    var atEdge, other := (c.switch, c.iface) !in ports.neighbours, (d.switch, d.iface) !in ports.neighbours;
    if c.acl.Some? != d.acl.Some? then c.acl.Some?
    else if Aggregated(c.iface) != Aggregated(d.iface) then Aggregated(d.iface)
    else if atEdge != other then atEdge
    else if Mbps(ports, c).Some? != Mbps(ports, d).Some? then Mbps(ports, c).Some?
    else if Mbps(ports, c) != Mbps(ports, d) then Mbps(ports, c).value < Mbps(ports, d).value
    else Addresses(ports, c) < Addresses(ports, d)
  }

  lemma BelowHead(a: seq<int>, b: seq<int>)
    requires |a| == |b| == 6
    ensures Below(a, b, 6) <==>
      if a[0] != b[0] then a[0] < b[0] else if a[1] != b[1] then a[1] < b[1] else if a[2] != b[2] then a[2] < b[2]
      else if a[3] != b[3] then a[3] < b[3] else if a[4] != b[4] then a[4] < b[4] else a[5] < b[5]
  {
    BelowNext(a, b, 0);
    BelowNext(a, b, 1);
    BelowNext(a, b, 2);
    BelowNext(a, b, 3);
    BelowNext(a, b, 4);
    BelowNext(a, b, 5);
  }

  lemma BelowIffBetter(ports: Ports, c: Candidate, d: Candidate)
    ensures Below(Rank(ports, c), Rank(ports, d), 6) <==> Better(ports, c, d)
  {
    PortChannelIsAggregated(c.iface);
    PortChannelIsAggregated(d.iface);
    BelowHead(Rank(ports, c), Rank(ports, d));
  }

  /** Where the choice says the client is: at this candidate, with all that is known of it. */
  predicate At(choice: Choice, c: Candidate) {
    && choice.mac == c.mac && choice.at.switch == Some(c.switch) && choice.at.iface == Some(c.iface)
    && choice.at.vlan == c.vlan && choice.at.speed == c.speed && choice.at.duplex == c.duplex
    && choice.at.link == c.link && choice.at.acl == c.acl
  }

  ghost predicate BeatsAll(ports: Ports, candidates: seq<Candidate>, c: Candidate) {
    c in candidates && forall d :: d in candidates && d != c ==> Better(ports, c, d)
  }

  /** Each candidate has another one that it is not better than. */
  ghost predicate NobodyBeatsAll(ports: Ports, candidates: seq<Candidate>) {
    forall i :: 0 <= i < |candidates| ==> HasRival(ports, candidates, i)
  }

  ghost predicate HasRival(ports: Ports, candidates: seq<Candidate>, i: nat)
    requires i < |candidates|
  {
    exists j :: 0 <= j < |candidates| && j != i && !Better(ports, candidates[i], candidates[j])
  }

  lemma BestIsBetter(ports: Ports, candidates: seq<Candidate>, best: Candidate, d: Candidate)
    requires Best(ports, candidates) == [best] && d in candidates && d != best
    ensures Better(ports, best, d)
  {
    assert best in Best(ports, candidates);
    BestMeaning(ports, candidates, best, d);
    BelowIffBetter(ports, best, d);
  }

  lemma SingleBestBeatsAll(ports: Ports, candidates: seq<Candidate>, best: Candidate)
    requires Best(ports, candidates) == [best]
    ensures BeatsAll(ports, candidates, best)
  {
    FilterMember(candidates, Unbeaten(ports, candidates, 6), best);
    forall d | d in candidates && d != best ensures Better(ports, best, d) { BestIsBetter(ports, candidates, best, d); }
  }

  lemma SeveralBestHaveRivals(ports: Ports, candidates: seq<Candidate>)
    requires |Best(ports, candidates)| != 1
    ensures NobodyBeatsAll(ports, candidates)
  {
    forall i | 0 <= i < |candidates| ensures HasRival(ports, candidates, i) {
      if !HasRival(ports, candidates, i) { BetterThanAllIsBest(ports, candidates, i); }
    }
  }

  /**
   What the cascade returns, rule by rule: the candidate that is better than every other, and nothing
   known of the place when there is no such candidate.
   */
  lemma ChoiceMeaning(ports: Ports, candidates: seq<Candidate>)
    requires candidates != []
    ensures var choice := SelectBest(ports, candidates);
      || (exists c :: BeatsAll(ports, candidates, c) && At(choice, c))
      || (NobodyBeatsAll(ports, candidates) && choice.at == Location(None, None, None, None, None, None, None))
  {
    CascadeIsArgmin(ports, candidates);
    if |Best(ports, candidates)| == 1 {
      SingleBestBeatsAll(ports, candidates, Best(ports, candidates)[0]);
      assert At(SelectBest(ports, candidates), Best(ports, candidates)[0]);
    } else {
      SeveralBestHaveRivals(ports, candidates);
    }
  }

  lemma FilterSingle<T>(s: seq<T>, p: T -> bool, i: nat)
    requires i < |s| && p(s[i]) && forall k :: 0 <= k < |s| && k != i ==> !p(s[k])
    ensures Filter(s, p) == [s[i]]
  {
    assert s == s[..i] + ([s[i]] + s[i + 1..]);
    FilterAppend(s[..i], [s[i]] + s[i + 1..], p);
    FilterAppend([s[i]], s[i + 1..], p);
    FilterOne(s[i], p);
    FilterNone(s[..i], p);
    FilterNone(s[i + 1..], p);
  }

  lemma BetterThanAllIsBest(ports: Ports, candidates: seq<Candidate>, i: nat)
    requires i < |candidates|
    requires forall k :: 0 <= k < |candidates| && k != i ==> Better(ports, candidates[i], candidates[k])
    ensures Best(ports, candidates) == [candidates[i]]
  {
    var p := Unbeaten(ports, candidates, 6);
    forall d | d in candidates ensures !Below(Rank(ports, d), Rank(ports, candidates[i]), 6) {
      var k :| 0 <= k < |candidates| && candidates[k] == d;
      BelowIffBetter(ports, d, candidates[i]);
    }
    forall k | 0 <= k < |candidates| && k != i ensures !p(candidates[k]) {
      BelowIffBetter(ports, candidates[i], candidates[k]);
    }
    FilterSingle(candidates, p, i);
  }
}
