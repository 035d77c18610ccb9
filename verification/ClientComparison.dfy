/**
 Comparing two records of a client (`_compare_records`, `_find_differences`, `_has_any_data` in
 app/services/client_comparison_service.py).
 */
module ClientComparison {
  import opened Wrappers

  /** The compared fields of a client record; `absent` ones are None. */
  datatype Side = Side(
    ip: Option<string>, switch: Option<string>, iface: Option<string>, vlan: Option<int>, speed: Option<string>,
    duplex: Option<string>, link: Option<string>, ping: Option<bool>)

  const ABSENT := Side(None, None, None, None, None, None, None, None)

  /** How speed, duplex and link status are normalised before they are compared. */
  datatype Normalizers = Normalizers(
    speed: string -> Option<int>, duplex: string -> Option<string>, link: string -> Option<string>)

  datatype Field =
    | Status | SwitchHostname | InterfaceName | VlanId | Speed | Duplex | LinkStatus | PingReachable | IpAddress

  datatype Value = Text(text: string) | Number(number: int) | Truth(truth: bool)

  datatype Change = Change(before: Value, after: Value)

  datatype Outcome = Outcome(isChanged: bool, undetected: bool, differences: map<Field, Change>)

  datatype Comparison = Comparison(mac: string, before: Side, after: Side, outcome: Outcome)

  /** `_has_any_data`: ping does not count as data. */
  predicate HasAnyData(s: Side) {
    NonEmpty(s.switch) || NonEmpty(s.iface) || NonEmpty(s.ip) || s.vlan.Some? || NonEmpty(s.speed)
      || NonEmpty(s.duplex) || NonEmpty(s.link)
  }

  function Normal<T>(normalize: string -> Option<T>, s: Option<string>): Option<T> {
    if s.Some? then normalize(s.value) else None
  }

  /** Both values present, and different once normalised. */
  predicate TextDiffers<T(==)>(normalize: string -> Option<T>, a: Option<string>, b: Option<string>) {
    var x, y := Normal(normalize, a), Normal(normalize, b);
    x.Some? && y.Some? && x != y
  }

  predicate ValueDiffers<T(==)>(a: Option<T>, b: Option<T>) {
    a.Some? && b.Some? && a != b
  }

  predicate FieldDiffers(norm: Normalizers, a: Side, b: Side, f: Field) {
    match f
    case Status => false
    case SwitchHostname => ValueDiffers(a.switch, b.switch)
    case InterfaceName => ValueDiffers(a.iface, b.iface)
    case VlanId => ValueDiffers(a.vlan, b.vlan)
    case Speed => TextDiffers(norm.speed, a.speed, b.speed)
    case Duplex => TextDiffers(norm.duplex, a.duplex, b.duplex)
    case LinkStatus => TextDiffers(norm.link, a.link, b.link)
    case PingReachable => ValueDiffers(a.ping, b.ping)
    case IpAddress => ValueDiffers(a.ip, b.ip)
  }

  const FIELDS: seq<Field> :=
    [SwitchHostname, InterfaceName, VlanId, Speed, Duplex, LinkStatus, PingReachable, IpAddress]

  function TextValue(s: Option<string>): Value {
    Text(if s.Some? then s.value else "")
  }

  function ValueAt(s: Side, f: Field): Value {
    match f
    case Status => Truth(HasAnyData(s))
    case SwitchHostname => TextValue(s.switch)
    case InterfaceName => TextValue(s.iface)
    case VlanId => Number(if s.vlan.Some? then s.vlan.value else 0)
    case Speed => TextValue(s.speed)
    case Duplex => TextValue(s.duplex)
    case LinkStatus => TextValue(s.link)
    case PingReachable => Truth(s.ping == Some(true))
    case IpAddress => TextValue(s.ip)
  }

  function Differences(norm: Normalizers, a: Side, b: Side): map<Field, Change> {
    map f | f in FIELDS && FieldDiffers(norm, a, b, f) :: Change(ValueAt(a, f), ValueAt(b, f))
  }

  function StatusChange(a: Side, b: Side): map<Field, Change> {
    map[Status := Change(ValueAt(a, Status), ValueAt(b, Status))]
  }

  /** `_compare_records` */
  function Compare(norm: Normalizers, a: Side, b: Side): Outcome {
    if !HasAnyData(a) && !HasAnyData(b) then Outcome(false, true, map[])
    else if HasAnyData(a) != HasAnyData(b) then Outcome(true, false, StatusChange(a, b))
    else Outcome(Differences(norm, a, b) != map[], false, Differences(norm, a, b))
  }

  /** The comparison object, filled in place. */
  class ClientComparisonRow {
    const mac: string
    var before: Side
    var after: Side
    var isChanged: bool
    var undetected: bool
    var differences: map<Field, Change>

    constructor (mac: string)
      ensures this.mac == mac && before == ABSENT && after == ABSENT && !undetected
    {
      this.mac, before, after := mac, ABSENT, ABSENT;
      isChanged, undetected, differences := false, false, map[];
    }

    function Value(): Comparison
      reads this
    {
      Comparison(mac, before, after, Outcome(isChanged, undetected, differences))
    }

    /** `_find_differences` */
    method FindDifferences(norm: Normalizers) returns (found: map<Field, Change>)
      ensures found == Differences(norm, before, after)
    {
      found := map[];
      for i := 0 to |FIELDS|
        invariant forall f :: f in found <==> f in FIELDS[..i] && FieldDiffers(norm, before, after, f)
        invariant forall f :: f in found ==> found[f] == Change(ValueAt(before, f), ValueAt(after, f))
      {
        var f := FIELDS[i];
        assert FIELDS[..i + 1] == FIELDS[..i] + [f];
        if FieldDiffers(norm, before, after, f) {
          found := found[f := Change(ValueAt(before, f), ValueAt(after, f))];
        }
      }
      assert FIELDS[..|FIELDS|] == FIELDS;
    }

    method CompareRecords(norm: Normalizers)
      requires !undetected
      modifies this`isChanged, this`undetected, this`differences
      ensures Value() == Comparison(mac, before, after, Compare(norm, before, after))
    {
      var beforeDetected, afterDetected := HasAnyData(before), HasAnyData(after);
      if !beforeDetected && !afterDetected {
        isChanged, undetected, differences := false, true, map[];
        return;
      }
      if beforeDetected && !afterDetected {
        isChanged := true;
        differences := StatusChange(before, after);
        return;
      }
      if !beforeDetected && afterDetected {
        isChanged := true;
        differences := StatusChange(before, after);
        return;
      }
      differences := FindDifferences(norm);
      isChanged := differences != map[];
    }
  }

  // ---- What a comparison says ----

  lemma SomeDifference(norm: Normalizers, a: Side, b: Side)
    ensures Differences(norm, a, b) != map[] <==> exists f :: FieldDiffers(norm, a, b, f)
  {
    if f :| FieldDiffers(norm, a, b, f) { assert f in Differences(norm, a, b); }
    if Differences(norm, a, b) != map[] {
      var f :| f in Differences(norm, a, b);
      assert FieldDiffers(norm, a, b, f);
    }
  }

  /** Reported as changed: one side detected and the other not, or some field differs. */
  lemma ChangedIff(norm: Normalizers, a: Side, b: Side)
    ensures Compare(norm, a, b).isChanged <==>
      (HasAnyData(a) != HasAnyData(b)) || (HasAnyData(a) && exists f :: FieldDiffers(norm, a, b, f))
  {
    SomeDifference(norm, a, b);
  }

  /** Looking from the other side finds the same fields, with the values exchanged. */
  lemma DifferencesSymmetric(norm: Normalizers, a: Side, b: Side, f: Field)
    ensures f in Differences(norm, a, b) <==> f in Differences(norm, b, a)
    ensures f in Differences(norm, a, b) ==>
      Differences(norm, b, a)[f] == Change(Differences(norm, a, b)[f].after, Differences(norm, a, b)[f].before)
  {
  }

  // ---- One client at two times ----

  /** The current side of a record without switch is left empty. */
  function CurrentSide(s: Side): Side {
    if s.switch.Some? then s else ABSENT
  }

  /**
   A record compared with itself should be unchanged.  It is reported as changed exactly when it has
   no switch but some other data: only its current side is dropped.
   */
  lemma SelfComparison(norm: Normalizers, s: Side)
    ensures Compare(norm, s, CurrentSide(s)).isChanged <==> s.switch.None? && HasAnyData(s)
  {
    ChangedIff(norm, s, CurrentSide(s));
  }

  /** An undetected client with an IP address appears to change although nothing did. */
  lemma UndetectedClientAppearsChanged(norm: Normalizers)
    ensures var s := ABSENT.(ip := Some("10.0.0.1"), ping := Some(true)); Compare(norm, s, CurrentSide(s)).isChanged
  {
  }

  // ---- Field by field ----

  predicate Given(s: Option<string>) {
    s.Some? && s.value != ""
  }

  /** One of seven fields says something; a ping result alone does not. */
  lemma HasDataIff(s: Side)
    ensures HasAnyData(s) <==>
      Given(s.switch) || Given(s.iface) || Given(s.ip) || s.vlan.Some? || Given(s.speed) || Given(s.duplex)
        || Given(s.link)
  {
  }

  /** The field is reported exactly if the values differ, with the old value first. */
  ghost predicate TextReported(d: map<Field, Change>, f: Field, a: Option<string>, b: Option<string>, differ: bool) {
    && (f in d <==> a.Some? && b.Some? && differ)
    && (f in d ==> d[f] == Change(Text(a.value), Text(b.value)))
  }

  /** Both values can be read, and read differently. */
  ghost predicate ReadDiffer<T>(read: string -> Option<T>, a: Option<string>, b: Option<string>) {
    a.Some? && b.Some? && read(a.value).Some? && read(b.value).Some? && read(a.value).value != read(b.value).value
  }

  /**
   What a comparison of two sides with data reports: a field is among the differences exactly if it is
   known on both sides and differs, speed, duplex and link status as far as they can be read.
   */
  ghost predicate FieldsReported(norm: Normalizers, a: Side, b: Side, o: Outcome) {
    var d := o.differences;
    && !o.undetected && (o.isChanged <==> d != map[]) && Status !in d
    && TextReported(d, SwitchHostname, a.switch, b.switch, a.switch != b.switch)
    && TextReported(d, InterfaceName, a.iface, b.iface, a.iface != b.iface)
    && TextReported(d, IpAddress, a.ip, b.ip, a.ip != b.ip)
    && TextReported(d, Speed, a.speed, b.speed, ReadDiffer(norm.speed, a.speed, b.speed))
    && TextReported(d, Duplex, a.duplex, b.duplex, ReadDiffer(norm.duplex, a.duplex, b.duplex))
    && TextReported(d, LinkStatus, a.link, b.link, ReadDiffer(norm.link, a.link, b.link))
    && (VlanId in d <==> a.vlan.Some? && b.vlan.Some? && a.vlan.value != b.vlan.value)
    && (VlanId in d ==> d[VlanId] == Change(Number(a.vlan.value), Number(b.vlan.value)))
    && (PingReachable in d <==> a.ping.Some? && b.ping.Some? && a.ping.value != b.ping.value)
    && (PingReachable in d ==> d[PingReachable] == Change(Truth(a.ping.value), Truth(b.ping.value)))
  }

  lemma FieldListed(f: Field)
    ensures f in FIELDS <==> f != Status
  {
    assert FIELDS[0] == SwitchHostname && FIELDS[1] == InterfaceName && FIELDS[2] == VlanId && FIELDS[3] == Speed;
    assert FIELDS[4] == Duplex && FIELDS[5] == LinkStatus && FIELDS[6] == PingReachable && FIELDS[7] == IpAddress;
  }

  lemma DifferenceAt(norm: Normalizers, a: Side, b: Side, f: Field)
    ensures f in Differences(norm, a, b) <==> FieldDiffers(norm, a, b, f)
    ensures f in Differences(norm, a, b) ==> Differences(norm, a, b)[f] == Change(ValueAt(a, f), ValueAt(b, f))
  {
    FieldListed(f);
  }

  /** The outcome of a comparison, in terms of the fields of the two sides. */
  lemma CompareMeaning(norm: Normalizers, a: Side, b: Side)
    ensures !HasAnyData(a) && !HasAnyData(b) ==> Compare(norm, a, b) == Outcome(false, true, map[])
    ensures HasAnyData(a) && !HasAnyData(b) ==>
      Compare(norm, a, b) == Outcome(true, false, map[Status := Change(Truth(true), Truth(false))])
    ensures !HasAnyData(a) && HasAnyData(b) ==>
      Compare(norm, a, b) == Outcome(true, false, map[Status := Change(Truth(false), Truth(true))])
    ensures HasAnyData(a) && HasAnyData(b) ==> FieldsReported(norm, a, b, Compare(norm, a, b))
  {
    forall f { DifferenceAt(norm, a, b, f); }
  }
}
