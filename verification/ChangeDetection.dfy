/**
 Flagging changed attributes of a client (`_get_transition_ts`, `_detect_change` and their use in
 `update_change_flags`, app/services/case_service.py).
 */
module ChangeDetection {
  import opened Wrappers

  /** One recorded value of an attribute; None while it was unknown. */
  datatype Observation<V> = Observation(value: Option<V>, at: int)

  const STABLE_AFTER := 15 * 60   // seconds

  function LastNone<V>(h: seq<Observation<V>>): int {
    if h == [] then -1
    else if h[|h| - 1].value.None? then |h| - 1
    else LastNone(h[..|h| - 1])
  }

  lemma {:induction false} LastNoneMeaning<V>(h: seq<Observation<V>>)
    ensures -1 <= LastNone(h) < |h|
    ensures LastNone(h) >= 0 ==> h[LastNone(h)].value.None?
    ensures forall i :: LastNone(h) < i < |h| ==> h[i].value.Some?
  {
    if h != [] { LastNoneMeaning(h[..|h| - 1]); }
  }

  /** When the attribute last went from unknown to known, if it is known now. */
  function Transition<V>(h: seq<Observation<V>>): Option<int> {
    LastNoneMeaning(h);
    var last := LastNone(h);
    if last < 0 then None else if last + 1 < |h| then Some(h[last + 1].at) else None
  }

  /** `_get_transition_ts` */
  method GetTransitionTs<V>(records: seq<Observation<V>>) returns (at: Option<int>)
    ensures at == Transition(records)
  {
    var lastNone := -1;
    for i := 0 to |records|
      invariant lastNone == LastNone(records[..i])
      invariant -1 <= lastNone < i
    {
      assert records[..i + 1][..i] == records[..i];
      if records[i].value.None? {
        lastNone := i;
      }
    }
    assert records[..|records|] == records;
    if lastNone < 0 { return None; }
    if lastNone + 1 < |records| { return Some(records[lastNone + 1].at); }
    return None;
  }

  /** The different known values, as text. */
  function Known<V>(show: V -> string, h: seq<Observation<V>>): set<string> {
    set i | 0 <= i < |h| && h[i].value.Some? :: show(h[i].value.value)
  }

  /** `_detect_change` */
  predicate Detect<V>(show: V -> string, h: seq<Observation<V>>, transition: Option<int>, now: int) {
    if h == [] then false
    else if Known(show, h) == {} then false
    else if |Known(show, h)| > 1 then true
    else if h[|h| - 1].value.None? then false
    else if exists i :: 0 <= i < |h| && h[i].value.None? then
      if transition.Some? && now - transition.value > STABLE_AFTER then false else true
    else false
  }

  /** The flag `update_change_flags` stores for the attribute. */
  predicate Changed<V>(show: V -> string, h: seq<Observation<V>>, now: int) {
    Detect(show, h, Transition(h), now)
  }

  // ---- What the flag means ----

  predicate Differ<V>(show: V -> string, a: Observation<V>, b: Observation<V>) {
    a.value.Some? && b.value.Some? && show(a.value.value) != show(b.value.value)
  }

  ghost predicate TwoValues<V>(show: V -> string, h: seq<Observation<V>>) {
    exists i, j :: 0 <= i < |h| && 0 <= j < |h| && Differ(show, h[i], h[j])
  }

  /** The value at `k` ended a gap, has been known ever since, for no more than 15 minutes (900 seconds). */
  ghost predicate RegainedAt<V>(h: seq<Observation<V>>, k: int, now: int) {
    && 0 < k < |h| && h[k - 1].value.None?
    && (forall i :: k <= i < |h| ==> h[i].value.Some?)
    && now - h[k].at <= 900
  }

  lemma SeveralKnown<V>(show: V -> string, h: seq<Observation<V>>)
    ensures |Known(show, h)| > 1 <==> TwoValues(show, h)
  {
    var known := Known(show, h);
    if i, j :| 0 <= i < |h| && 0 <= j < |h| && Differ(show, h[i], h[j]) {
      var x, y := show(h[i].value.value), show(h[j].value.value);
      assert {x, y} <= known;
      Subset({x, y}, known);
      assert |{x, y}| == 2;
    }
    if |known| > 1 {
      var x :| x in known;
      assert |known - {x}| > 0;
      var y :| y in known - {x};
      var i :| 0 <= i < |h| && h[i].value.Some? && show(h[i].value.value) == x;
      var j :| 0 <= j < |h| && h[j].value.Some? && show(h[j].value.value) == y;
      assert Differ(show, h[i], h[j]);
    }
  }

  lemma Subset<T>(a: set<T>, b: set<T>)
    requires a <= b
    ensures |a| <= |b|
  {
    assert b == a + (b - a);
    assert |b| == |a| + |b - a|;
  }

  /** Known now after a gap: the value was regained after the last unknown one. */
  lemma RegainedIff<V>(h: seq<Observation<V>>, k: int, now: int)
    requires h != [] && h[|h| - 1].value.Some?
    ensures RegainedAt(h, k, now) ==> k == LastNone(h) + 1
    ensures 0 <= LastNone(h) < |h| - 1 && now - h[LastNone(h) + 1].at <= STABLE_AFTER ==>
      RegainedAt(h, LastNone(h) + 1, now)
    ensures (exists i :: 0 <= i < |h| && h[i].value.None?) <==> LastNone(h) >= 0
  {
    LastNoneMeaning(h);
  }

  /**
   An attribute is flagged exactly when its history has two different known values, or its single
   value was regained after a gap no more than 15 minutes ago.
   */
  lemma ChangedIff<V>(show: V -> string, h: seq<Observation<V>>, now: int)
    ensures Changed(show, h, now) <==> TwoValues(show, h) || exists k :: RegainedAt(h, k, now)
  {
    SeveralKnown(show, h);
    if h != [] && h[|h| - 1].value.Some? {
      assert show(h[|h| - 1].value.value) in Known(show, h);
      LastNoneMeaning(h);
      RegainedIff(h, LastNone(h) + 1, now);
      if k :| RegainedAt(h, k, now) { RegainedIff(h, k, now); }
    }
  }

  /** A flag raised by two different values is never lowered. */
  lemma TwoValuesStay<V>(show: V -> string, h: seq<Observation<V>>, more: seq<Observation<V>>, now: int)
    requires TwoValues(show, h)
    ensures Changed(show, h + more, now)
  {
    var i, j :| 0 <= i < |h| && 0 <= j < |h| && Differ(show, h[i], h[j]);
    assert Differ(show, (h + more)[i], (h + more)[j]);
    ChangedIff(show, h + more, now);
  }

  /** A flag raised by a regained value goes away by itself, and only once. */
  lemma RegainedExpires<V>(show: V -> string, h: seq<Observation<V>>, now: int, later: int)
    requires now <= later && !TwoValues(show, h)
    ensures Changed(show, h, later) ==> Changed(show, h, now)
    ensures Transition(h).Some? && later - Transition(h).value > STABLE_AFTER ==> !Changed(show, h, later)
  {
    ChangedIff(show, h, now);
    ChangedIff(show, h, later);
    if k :| RegainedAt(h, k, later) { assert RegainedAt(h, k, now); }
    if h != [] && h[|h| - 1].value.Some? {
      if k :| RegainedAt(h, k, later) { RegainedIff(h, k, later); }
    }
  }

  /** Recording the same value again does not move the transition time. */
  lemma RepeatKeepsTransition<V>(h: seq<Observation<V>>, o: Observation<V>)
    requires h != [] && o.value == h[|h| - 1].value
    ensures Transition(h + [o]) == Transition(h)
  {
    assert (h + [o])[..|h|] == h;
    LastNoneMeaning(h);
  }
}
