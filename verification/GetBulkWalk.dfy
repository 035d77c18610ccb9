/**
 The GETBULK subtree walk of app/snmp/engine.py against an agent that answers as section 4.2.3
 of RFC 3416 prescribes.

 The agent holds its bindings in strictly increasing order.  The environment (clock, transport,
 agent) is a script: its k-th entry says what happens to the k-th request, including how many
 repetitions the agent fits into the response.
 */
module GetBulkWalk {
  import opened Wrappers
  import opened OidOrder

  datatype Binding = Binding(oid: Oid, value: string)

  /** One row of a response: a binding of the agent, or the endOfMibView exception. */
  datatype VarBind = Bound(binding: Binding) | EndOfMibView(name: Oid)

  datatype SnmpError = TimeoutError | OtherError

  /** What happens to one request of the walk. */
  datatype Reply =
    | DeadlinePassed                     // the walk deadline passed before the request
    | Hung                               // wait_for cancelled the request
    | ErrorIndication(isTimeout: bool)
    | ErrorStatus
    | Table(fits: nat)                   // a response with room for `fits` repetitions

  ghost predicate Sorted(agent: seq<Binding>) {
    forall i, j {:trigger Less(agent[i].oid, agent[j].oid)} :: 0 <= i < j < |agent| ==> Less(agent[i].oid, agent[j].oid)
  }

  /** The bindings strictly below `root`, in the agent's order: what the walk is meant to return. */
  function Subtree(agent: seq<Binding>, root: Oid): seq<Binding> {
    if agent == [] then []
    else (if Under(root, agent[0].oid) then [agent[0]] else []) + Subtree(agent[1..], root)
  }

  /** Position of the lexicographic successor of `oid`. */
  function Successor(agent: seq<Binding>, oid: Oid): (k: nat)
    ensures k <= |agent|
  {
    if agent == [] || Less(oid, agent[0].oid) then 0 else 1 + Successor(agent[1..], oid)
  }

  lemma {:induction false} NotBeforeSuccessor(agent: seq<Binding>, oid: Oid, i: nat)
    requires i < Successor(agent, oid)
    ensures !Less(oid, agent[i].oid)
  {
    if i > 0 { NotBeforeSuccessor(agent[1..], oid, i - 1); }
  }

  lemma {:induction false} AtSuccessor(agent: seq<Binding>, oid: Oid)
    requires Successor(agent, oid) < |agent|
    ensures Less(oid, agent[Successor(agent, oid)].oid)
  {
    if !Less(oid, agent[0].oid) { AtSuccessor(agent[1..], oid); }
  }

  /** `rows` are the bindings of the agent from position `pos` on, then exceptions. */
  ghost predicate RowsFrom(agent: seq<Binding>, pos: nat, rows: seq<VarBind>) {
    forall i :: 0 <= i < |rows| ==>
      (rows[i].Bound? <==> pos + i < |agent|) && (rows[i].Bound? ==> rows[i].binding == agent[pos + i])
  }

  /** The agent's response to GetBulk: `count` successors of `oid`, then exceptions. */
  method GetBulk(agent: seq<Binding>, oid: Oid, count: nat) returns (rows: seq<VarBind>)
    ensures |rows| == count && RowsFrom(agent, Successor(agent, oid), rows)
  {
    rows := [];
    var first := Successor(agent, oid);
    var name := oid;
    while |rows| < count
      invariant |rows| <= count && RowsFrom(agent, first, rows)
    {
      if first + |rows| < |agent| {
        var binding := agent[first + |rows|];
        name := binding.oid;
        rows := rows + [Bound(binding)];
      } else {
        rows := rows + [EndOfMibView(name)];
      }
    }
  }

  function FaultOf(reply: Reply): SnmpError
    requires !reply.Table?
  {
    match reply
    case DeadlinePassed => TimeoutError
    case Hung => TimeoutError
    case ErrorIndication(isTimeout) => if isTimeout then TimeoutError else OtherError
    case ErrorStatus => OtherError
  }

  lemma SubtreeCons(b: Binding, rest: seq<Binding>, root: Oid)
    ensures Subtree([b] + rest, root) == (if Under(root, b.oid) then [b] else []) + Subtree(rest, root)
  {
    assert ([b] + rest)[1..] == rest;
  }

  lemma Associative<T>(a: seq<T>, b: seq<T>, c: seq<T>)
    ensures a + (b + c) == (a + b) + c
  {
  }

  lemma {:induction false} SubtreeAppend(a: seq<Binding>, b: seq<Binding>, root: Oid)
    ensures Subtree(a + b, root) == Subtree(a, root) + Subtree(b, root)
  {
    if a == [] {
      assert a + b == b;
    } else {
      SubtreeAppend(a[1..], b, root);
      SubtreeCons(a[0], a[1..] + b, root);
      assert a + b == [a[0]] + (a[1..] + b);
      Associative(if Under(root, a[0].oid) then [a[0]] else [], Subtree(a[1..], root), Subtree(b, root));
    }
  }

  lemma {:induction false} SubtreeAll(a: seq<Binding>, root: Oid)
    requires forall b :: b in a ==> Under(root, b.oid)
    ensures Subtree(a, root) == a
  {
    if a != [] { SubtreeAll(a[1..], root); }
  }

  lemma {:induction false} SubtreeNone(a: seq<Binding>, root: Oid)
    requires forall b :: b in a ==> !Under(root, b.oid)
    ensures Subtree(a, root) == []
  {
    if a != [] { SubtreeNone(a[1..], root); }
  }

  lemma NoneBefore(agent: seq<Binding>, root: Oid)
    ensures Subtree(agent[..Successor(agent, root)], root) == []
  {
    var before := agent[..Successor(agent, root)];
    forall b | b in before ensures !Under(root, b.oid) {
      var i :| 0 <= i < |before| && before[i] == b;
      NotBeforeSuccessor(agent, root, i);
      if Under(root, b.oid) { LessAbove(root, b.oid); }
    }
    SubtreeNone(before, root);
  }

  lemma RootBefore(agent: seq<Binding>, root: Oid, pos: nat)
    requires Sorted(agent) && Successor(agent, root) <= pos < |agent|
    ensures Less(root, agent[pos].oid)
  {
    AtSuccessor(agent, root);
    var start := Successor(agent, root);
    if start < pos { LessTransitive(root, agent[start].oid, agent[pos].oid); }
  }

  lemma NoneAfter(agent: seq<Binding>, root: Oid, pos: nat)
    requires Sorted(agent) && Successor(agent, root) <= pos < |agent|
    requires !Under(root, agent[pos].oid)
    ensures Subtree(agent[pos..], root) == []
  {
    var after := agent[pos..];
    RootBefore(agent, root, pos);
    forall b | b in after ensures !Under(root, b.oid) {
      var i :| 0 <= i < |after| && after[i] == b;
      if i > 0 { SubtreeContiguous(root, agent[pos].oid, agent[pos + i].oid); }
    }
    SubtreeNone(after, root);
  }

  /** The subtree occupies one block of the agent, starting at the successor of its root. */
  lemma SubtreeIsBlock(agent: seq<Binding>, root: Oid, pos: nat)
    requires Sorted(agent)
    requires Successor(agent, root) <= pos <= |agent|
    requires forall b :: b in agent[Successor(agent, root)..pos] ==> Under(root, b.oid)
    ensures agent[Successor(agent, root)..pos] <= Subtree(agent, root)
    ensures pos == |agent| || !Under(root, agent[pos].oid) ==>
      Subtree(agent, root) == agent[Successor(agent, root)..pos]
  {
    var start := Successor(agent, root);
    var before, block, after := agent[..start], agent[start..pos], agent[pos..];
    assert agent == before + (block + after);
    SubtreeAppend(before, block + after, root);
    SubtreeAppend(block, after, root);
    SubtreeAll(block, root);
    NoneBefore(agent, root);
    if pos < |agent| && !Under(root, agent[pos].oid) { NoneAfter(agent, root, pos); }
  }

  /** Asking from the last collected binding continues exactly after it. */
  lemma SuccessorOfMember(agent: seq<Binding>, pos: nat)
    requires Sorted(agent) && pos < |agent|
    ensures Successor(agent, agent[pos].oid) == pos + 1
  {
    var oid := agent[pos].oid;
    var k := Successor(agent, oid);
    if pos + 1 < k {
      NotBeforeSuccessor(agent, oid, pos + 1);
    } else if k == pos {
      AtSuccessor(agent, oid);
      LessIrreflexive(oid);
    } else if k < pos {
      AtSuccessor(agent, oid);
      LessAsymmetric(agent[k].oid, oid);
    }
  }

  /** `max_repetitions or config`: an absent or zero request falls back to the configured value. */
  function Repetitions(requested: Option<nat>, configured: nat): nat {
    if requested.Some? && requested.value != 0 then requested.value else configured
  }

  /** The bindings `start..pos` are collected, all of them in scope, and `current` is the last one. */
  ghost predicate Progress(agent: seq<Binding>, root: Oid, start: nat, pos: nat, results: seq<Binding>, current: Oid) {
    && start <= pos <= |agent|
    && results == agent[start..pos]
    && (forall b :: b in results ==> Under(root, b.oid))
    && current == (if pos == start then root else agent[pos - 1].oid)
  }

  lemma ProgressFacts(agent: seq<Binding>, root: Oid, pos: nat, results: seq<Binding>, current: Oid)
    requires Sorted(agent) && Progress(agent, root, Successor(agent, root), pos, results, current)
    ensures Successor(agent, current) == pos
    ensures results <= Subtree(agent, root)
    ensures pos == |agent| || !Under(root, agent[pos].oid) ==> results == Subtree(agent, root)
  {
    var start := Successor(agent, root);
    SubtreeIsBlock(agent, root, pos);
    if pos > start { SuccessorOfMember(agent, pos - 1); }
  }

  /** The inner loop of `walk`: take the rows of one response up to the first one out of scope. */
  method TakeRows(agent: seq<Binding>, root: Oid, rows: seq<VarBind>, soFar: seq<Binding>, asked: Oid,
                  ghost start: nat, ghost pos: nat)
    returns (results: seq<Binding>, current: Oid, outOfScope: bool, ghost pos': nat)
    requires Progress(agent, root, start, pos, soFar, asked)
    requires RowsFrom(agent, pos, rows)
    ensures Progress(agent, root, start, pos', results, current) && pos <= pos'
    ensures outOfScope ==> pos' == |agent| || !Under(root, agent[pos'].oid)
    ensures !outOfScope ==> pos' == pos + |rows|
    ensures pos' <= pos + |rows|
  {
    results, current, outOfScope, pos' := soFar, asked, false, pos;
    for i := 0 to |rows|
      invariant pos' == pos + i
      invariant Progress(agent, root, start, pos', results, current)
    {
      if rows[i].EndOfMibView? || !Under(root, rows[i].binding.oid) {
        outOfScope := true;
        break;
      }
      results := results + [rows[i].binding];
      current := rows[i].binding.oid;
      pos' := pos' + 1;
    }
  }

  /** The first `n` requests were all answered, each with at least one repetition. */
  ghost predicate Answered(env: nat -> Reply, n: nat) {
    forall k: nat :: k < n ==> env(k).Table? && env(k).fits > 0
  }

  /** How many repetitions the k-th response carries. */
  function Carried(env: nat -> Reply, maxRep: nat, k: nat): nat {
    if !env(k).Table? then 0 else if env(k).fits < maxRep then env(k).fits else maxRep
  }

  /** How many rows the first `n` responses carry. */
  function Served(env: nat -> Reply, maxRep: nat, n: nat): nat {
    if n == 0 then 0 else Served(env, maxRep, n - 1) + Carried(env, maxRep, n - 1)
  }

  /** Until `total` rows are served, every response carries a repetition. */
  ghost predicate Sufficient(env: nat -> Reply, maxRep: nat, total: nat) {
    forall k: nat :: Served(env, maxRep, k) < total ==> Carried(env, maxRep, k) > 0
  }

  lemma {:induction false} ServedGrows(env: nat -> Reply, maxRep: nat, m: nat, n: nat)
    requires m <= n
    ensures Served(env, maxRep, m) <= Served(env, maxRep, n)
  {
    if m < n { ServedGrows(env, maxRep, m, n - 1); }
  }

  /** The first `n` responses carry a repetition each. */
  ghost predicate EachCarries(env: nat -> Reply, maxRep: nat, n: nat) {
    forall k: nat :: k < n ==> Carried(env, maxRep, k) > 0
  }

  lemma EachCarriesNext(env: nat -> Reply, maxRep: nat, n: nat)
    requires EachCarries(env, maxRep, n) && Carried(env, maxRep, n) > 0
    ensures EachCarries(env, maxRep, n + 1)
  {
  }

  /** How a walk that ended with response `last` tells whether the replies were sufficient. */
  lemma SufficientAtEnd(env: nat -> Reply, maxRep: nat, total: nat, last: nat)
    requires EachCarries(env, maxRep, last) && Served(env, maxRep, last) <= total
    requires Carried(env, maxRep, last) > 0 ==> Served(env, maxRep, last + 1) >= total
    ensures Sufficient(env, maxRep, total) <==> Carried(env, maxRep, last) > 0 || Served(env, maxRep, last) == total
  {
    if Carried(env, maxRep, last) > 0 || Served(env, maxRep, last) == total {
      forall k: nat | Served(env, maxRep, k) < total ensures Carried(env, maxRep, k) > 0 {
        if k > last { ServedGrows(env, maxRep, last + 1, k); }
      }
    }
  }

  /** With at least one repetition in each of the first `n` responses, at least `n` rows are served. */
  lemma {:induction false} ServedAtLeast(env: nat -> Reply, maxRep: nat, n: nat)
    requires EachCarries(env, maxRep, n)
    ensures Served(env, maxRep, n) >= n
  {
    if n > 0 { ServedAtLeast(env, maxRep, n - 1); }
  }

  lemma {:induction false} ServedByOnes(env: nat -> Reply, n: nat)
    ensures Served(env, 1, n) <= n
  {
    if n > 0 { ServedByOnes(env, n - 1); }
  }

  /** Asking for more repetitions than one makes none come if none fits, and one if one does. */
  lemma CarriesAlike(env: nat -> Reply, maxRep: nat, n: nat)
    requires maxRep > 0
    ensures EachCarries(env, maxRep, n) <==> EachCarries(env, 1, n)
  {
    forall k: nat ensures Carried(env, maxRep, k) > 0 <==> Carried(env, 1, k) > 0 {}
  }

  lemma ServedSuffices(env: nat -> Reply, maxRep: nat, total: nat)
    requires EachCarries(env, maxRep, total)
    ensures Sufficient(env, maxRep, total)
  {
    ServedAtLeast(env, maxRep, total);
    forall k: nat | Served(env, maxRep, k) < total ensures Carried(env, maxRep, k) > 0 {
      if k >= total { ServedGrows(env, maxRep, total, k); }
    }
  }

  /**
   The replies suffice for a subtree of `total` bindings whatever the number of repetitions asked for,
   exactly if each of the first `total` responses has room for one.
   */
  lemma SufficientForAnyIff(env: nat -> Reply, total: nat)
    ensures (forall maxRep: nat :: maxRep > 0 ==> Sufficient(env, maxRep, total)) <==> EachCarries(env, 1, total)
  {
    if Sufficient(env, 1, total) {
      forall k: nat | k < total ensures Carried(env, 1, k) > 0 { ServedByOnes(env, k); }
    }
    if EachCarries(env, 1, total) {
      forall maxRep: nat | maxRep > 0 ensures Sufficient(env, maxRep, total) {
        CarriesAlike(env, maxRep, total);
        ServedSuffices(env, maxRep, total);
      }
    }
  }

  /** One response: what it adds, and whether the walk ends with it. */
  method Exchange(agent: seq<Binding>, root: Oid, repetitions: nat, soFar: seq<Binding>, asked: Oid, ghost pos: nat)
    returns (results: seq<Binding>, current: Oid, finished: bool, ghost pos': nat)
    requires Sorted(agent) && Progress(agent, root, Successor(agent, root), pos, soFar, asked)
    ensures Progress(agent, root, Successor(agent, root), pos', results, current)
    ensures results <= Subtree(agent, root)
    ensures finished && repetitions > 0 ==> results == Subtree(agent, root)
    ensures repetitions == 0 ==> finished && results == soFar
    ensures !finished ==> pos' > pos && |results| == |soFar| + repetitions
    ensures |results| <= |soFar| + repetitions
  {
    ProgressFacts(agent, root, pos, soFar, asked);
    var rows := GetBulk(agent, asked, repetitions);
    if rows == [] { return soFar, asked, true, pos; }
    results, current, finished, pos' := TakeRows(agent, root, rows, soFar, asked, Successor(agent, root), pos);
    ProgressFacts(agent, root, pos', results, current);
  }

  /** After `sent` requests the walk has `collected` of the `total` bindings and goes on. */
  ghost predicate Going(env: nat -> Reply, maxRep: nat, total: nat, sent: nat, collected: nat) {
    && sent <= collected <= total && collected == Served(env, maxRep, sent)
    && Answered(env, sent) && EachCarries(env, maxRep, sent)
  }

  lemma GoesOn(env: nat -> Reply, maxRep: nat, total: nat, sent: nat, soFar: nat, collected: nat)
    requires Going(env, maxRep, total, sent, soFar) && env(sent).Table? && Carried(env, maxRep, sent) > 0
    requires collected == soFar + Carried(env, maxRep, sent) <= total
    ensures Going(env, maxRep, total, sent + 1, collected)
  {
    EachCarriesNext(env, maxRep, sent);
  }

  /** A walk that ended without error after `sent` requests has all the bindings exactly if the replies sufficed. */
  ghost predicate AllIffSufficient(env: nat -> Reply, maxRep: nat, total: nat, sent: nat, all: bool)
    requires sent > 0
  {
    && (all <==> Carried(env, maxRep, sent - 1) > 0 || Served(env, maxRep, sent - 1) == total)
    && (all <==> Sufficient(env, maxRep, total))
  }

  lemma EndsWith(env: nat -> Reply, maxRep: nat, all: seq<Binding>, sent: nat, soFar: seq<Binding>,
                 results: seq<Binding>)
    requires Going(env, maxRep, |all|, sent, |soFar|) && |results| <= |soFar| + Carried(env, maxRep, sent)
    requires results <= all && if Carried(env, maxRep, sent) > 0 then results == all else results == soFar
    ensures AllIffSufficient(env, maxRep, |all|, sent + 1, results == all)
  {
    SufficientAtEnd(env, maxRep, |all|, sent);
    assert results == all <==> |results| == |all|;
  }

  ghost predicate Walking(agent: seq<Binding>, root: Oid, env: nat -> Reply, maxRep: nat, sent: nat, pos: nat,
                          results: seq<Binding>, current: Oid) {
    && Progress(agent, root, Successor(agent, root), pos, results, current)
    && results <= Subtree(agent, root)
    && Going(env, maxRep, |Subtree(agent, root)|, sent, |results|)
  }

  /** One answered request of the walk. */
  method Request(agent: seq<Binding>, root: Oid, env: nat -> Reply, maxRep: nat, sent: nat, soFar: seq<Binding>,
                 asked: Oid, ghost pos: nat)
    returns (results: seq<Binding>, current: Oid, finished: bool, ghost pos': nat)
    requires Sorted(agent) && Walking(agent, root, env, maxRep, sent, pos, soFar, asked) && env(sent).Table?
    ensures if finished then
        && results <= Subtree(agent, root)
        && AllIffSufficient(env, maxRep, |Subtree(agent, root)|, sent + 1, results == Subtree(agent, root))
      else Walking(agent, root, env, maxRep, sent + 1, pos', results, current) && pos < pos' <= |agent|
  {
    ghost var all := Subtree(agent, root);
    results, current, finished, pos' := Exchange(agent, root, Carried(env, maxRep, sent), soFar, asked, pos);
    if finished {
      EndsWith(env, maxRep, all, sent, soFar, results);
    } else {
      GoesOn(env, maxRep, |all|, sent, |soFar|, |results|);
    }
  }

  /**
   `AsyncSnmpEngine.walk`.

   - The walk fails exactly when its last request does, and with the error of that request.
   - Otherwise it returns a prefix of the subtree, in order and each binding once.  The prefix is the
     whole subtree, whatever the number of repetitions asked for and however the agent cuts its
     responses, exactly if every response up to the end of the subtree carries a repetition: a
     response without any ends the walk without an error.  The caller of the walk can tell by the
     last response, or by everything having been served before it.
   - It sends at most one request more than the subtree has bindings.
   */
  method Walk(agent: seq<Binding>, root: Oid, requested: Option<nat>, configured: nat, env: nat -> Reply)
    returns (res: Result<seq<Binding>, SnmpError>, sent: nat)
    requires Sorted(agent)
    ensures 1 <= sent <= |Subtree(agent, root)| + 1
    ensures Answered(env, sent - 1)
    ensures res.Err? <==> !env(sent - 1).Table?
    ensures res.Err? ==> res.error == FaultOf(env(sent - 1))
    ensures res.Err? ==>
      (res.error == TimeoutError <==> env(sent - 1) in {DeadlinePassed, Hung, ErrorIndication(true)})
    ensures res.Ok? ==> res.value <= Subtree(agent, root)
    ensures res.Ok? ==>
      AllIffSufficient(env, if requested.Some? && requested.value > 0 then requested.value else configured,
                       |Subtree(agent, root)|, sent, res.value == Subtree(agent, root))
  {
    var maxRep := Repetitions(requested, configured);
    var results: seq<Binding> := [];
    var current := root;
    sent := 0;
    ghost var pos := Successor(agent, root);
    WalkStarts(agent, root, env, maxRep);
    while true
      invariant Walking(agent, root, env, maxRep, sent, pos, results, current)
      decreases |agent| - pos
    {
      var reply := env(sent);
      sent := sent + 1;
      if !reply.Table? {
        return Err(FaultOf(reply)), sent;
      }
      var finished;
      results, current, finished, pos := Request(agent, root, env, maxRep, sent - 1, results, current, pos);
      if finished {
        return Ok(results), sent;
      }
    }
  }

  lemma WalkStarts(agent: seq<Binding>, root: Oid, env: nat -> Reply, maxRep: nat)
    ensures Walking(agent, root, env, maxRep, 0, Successor(agent, root), [], root)
  {
  }

  lemma NotAnswered(env: nat -> Reply)
    requires env(0) == Table(0)
    ensures !Answered(env, 1)
  {
    var k: nat := 0;
    assert k < 1 && env(k).fits == 0;
  }

  /** A binding of the subtree is lost without an error when the first response carries no repetition. */
  method WalkWithEmptyResponse(root: Oid, b: Binding, requested: Option<nat>, configured: nat, env: nat -> Reply)
    returns (res: Result<seq<Binding>, SnmpError>, sent: nat)
    requires Under(root, b.oid) && env(0) == Table(0)
    ensures Subtree([b], root) == [b]
    ensures res == Ok([]) && sent == 1
  {
    res, sent := Walk([b], root, requested, configured, env);
    SubtreeAll([b], root);
    NotAnswered(env);
  }
}
