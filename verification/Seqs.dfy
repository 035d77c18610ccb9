/** Filtering and mapping of sequences: the relational vocabulary of the table models. */
module Seqs {
  /** The elements satisfying `p`, in order: `SELECT ... WHERE p`. */
  function Filter<T>(s: seq<T>, p: T -> bool): seq<T> {
    if s == [] then []
    else Filter(s[..|s| - 1], p) + (if p(s[|s| - 1]) then [s[|s| - 1]] else [])
  }

  function Map<T, U>(s: seq<T>, f: T -> U): (r: seq<U>)
    ensures |r| == |s|
    ensures forall i :: 0 <= i < |s| ==> r[i] == f(s[i])
  {
    seq(|s|, i requires 0 <= i < |s| => f(s[i]))
  }

  function Last<T>(s: seq<T>): T
    requires s != []
  {
    s[|s| - 1]
  }

  function Front<T>(s: seq<T>): seq<T>
    requires s != []
  {
    s[..|s| - 1]
  }

  lemma TakeNext<T>(s: seq<T>, i: nat)
    requires i < |s|
    ensures s[..i + 1] == s[..i] + [s[i]]
  {
  }

  lemma {:induction false} FilterMember<T>(s: seq<T>, p: T -> bool, x: T)
    ensures x in Filter(s, p) <==> x in s && p(x)
  {
    if s != [] {
      assert s == s[..|s| - 1] + [Last(s)];
      FilterMember(s[..|s| - 1], p, x);
    }
  }

  lemma {:induction false} FilterShorter<T>(s: seq<T>, p: T -> bool)
    ensures |Filter(s, p)| <= |s|
  {
    if s != [] { FilterShorter(s[..|s| - 1], p); }
  }

  lemma {:induction false} FilterAppend<T>(a: seq<T>, b: seq<T>, p: T -> bool)
    ensures Filter(a + b, p) == Filter(a, p) + Filter(b, p)
  {
    if b == [] {
      assert a + b == a;
    } else {
      var front := b[..|b| - 1];
      assert (a + b)[..|a + b| - 1] == a + front;
      FilterAppend(a, front, p);
    }
  }

  /** Predicates that agree on the elements select the same elements. */
  lemma {:induction false} FilterSame<T>(s: seq<T>, p: T -> bool, q: T -> bool)
    requires forall x :: x in s ==> p(x) == q(x)
    ensures Filter(s, p) == Filter(s, q)
  {
    if s != [] { FilterSame(s[..|s| - 1], p, q); }
  }

  /** Of two filters in a row the inner one may be dropped when the outer one implies it. */
  lemma {:induction false} FilterAbsorb<T>(s: seq<T>, p: T -> bool, q: T -> bool)
    requires forall x :: x in s && q(x) ==> p(x)
    ensures Filter(Filter(s, p), q) == Filter(s, q)
  {
    if s != [] {
      var front, last := s[..|s| - 1], Last(s);
      FilterAbsorb(front, p, q);
      FilterAppend(Filter(front, p), if p(last) then [last] else [], q);
      FilterOne(last, q);
    }
  }

  /** Two filters in a row are one. */
  lemma {:induction false} FilterBoth<T>(s: seq<T>, p: T -> bool, q: T -> bool, both: T -> bool)
    requires forall x :: x in s ==> both(x) == (p(x) && q(x))
    ensures Filter(Filter(s, p), q) == Filter(s, both)
  {
    if s != [] {
      var front, last := s[..|s| - 1], Last(s);
      FilterBoth(front, p, q, both);
      FilterAppend(Filter(front, p), if p(last) then [last] else [], q);
      FilterOne(last, q);
    }
  }

  lemma FilterOne<T>(x: T, p: T -> bool)
    ensures Filter([x], p) == if p(x) then [x] else []
  {
    assert [x][..0] == [];
  }

  lemma {:induction false} FilterCommute<T>(s: seq<T>, p: T -> bool, q: T -> bool)
    ensures Filter(Filter(s, p), q) == Filter(Filter(s, q), p)
  {
    if s != [] {
      var front, last := s[..|s| - 1], Last(s);
      FilterCommute(front, p, q);
      FilterAppend(Filter(front, p), if p(last) then [last] else [], q);
      FilterAppend(Filter(front, q), if q(last) then [last] else [], p);
      FilterOne(last, p);
      FilterOne(last, q);
    }
  }

  lemma {:induction false} FilterAll<T>(s: seq<T>, p: T -> bool)
    requires forall x :: x in s ==> p(x)
    ensures Filter(s, p) == s
  {
    if s != [] {
      var front := s[..|s| - 1];
      assert s == front + [Last(s)];
      assert forall x :: x in front ==> x in s;
      FilterAll(front, p);
    }
  }

  lemma {:induction false} FilterNone<T>(s: seq<T>, p: T -> bool)
    requires forall x :: x in s ==> !p(x)
    ensures Filter(s, p) == []
  {
    if s != [] { FilterNone(s[..|s| - 1], p); }
  }

  /** How often an element is selected. */
  lemma {:induction false} FilterCount<T>(s: seq<T>, p: T -> bool, x: T)
    ensures multiset(Filter(s, p))[x] == if p(x) then multiset(s)[x] else 0
  {
    if s != [] {
      assert s == s[..|s| - 1] + [Last(s)];
      FilterCount(s[..|s| - 1], p, x);
    }
  }

  /** A predicate that stays true along the sequence selects a suffix of it. */
  lemma {:induction false} FilterSuffix<T>(s: seq<T>, p: T -> bool) returns (n: nat)
    requires forall i, j :: 0 <= i < j < |s| && p(s[i]) ==> p(s[j])
    ensures n <= |s| && Filter(s, p) == s[n..]
    ensures s != [] && p(Last(s)) ==> n < |s|
  {
    if s == [] {
      n := 0;
    } else if p(Last(s)) {
      var front := s[..|s| - 1];
      n := FilterSuffix(front, p);
      assert s[n..] == front[n..] + [Last(s)];
    } else {
      n := |s|;
      assert forall x :: x in s ==> !p(x);
      FilterNone(s, p);
    }
  }

  /** A predicate that holds from one position on selects what follows it. */
  lemma FilterFrom<T>(s: seq<T>, p: T -> bool, k: nat)
    requires k <= |s|
    requires forall i :: 0 <= i < k ==> !p(s[i])
    requires forall i :: k <= i < |s| ==> p(s[i])
    ensures Filter(s, p) == s[k..]
  {
    assert s == s[..k] + s[k..];
    FilterAppend(s[..k], s[k..], p);
    FilterNone(s[..k], p);
    FilterAll(s[k..], p);
  }

  /** Restricting an ordered sequence keeps its order. */
  lemma {:induction false} FilterOrdered<T>(s: seq<T>, p: T -> bool, less: (T, T) -> bool)
    requires forall i, j :: 0 <= i < j < |s| ==> less(s[i], s[j])
    ensures forall i, j :: 0 <= i < j < |Filter(s, p)| ==> less(Filter(s, p)[i], Filter(s, p)[j])
  {
    if s != [] {
      var front, last := s[..|s| - 1], Last(s);
      FilterOrdered(front, p, less);
      var f := Filter(front, p);
      forall i | 0 <= i < |f| ensures less(f[i], last) {
        FilterMember(front, p, f[i]);
        var k :| 0 <= k < |front| && front[k] == f[i];
        assert less(s[k], s[|s| - 1]);
      }
    }
  }

  /** Rewriting elements without changing what is selected. */
  lemma {:induction false} FilterMap<T>(s: seq<T>, p: T -> bool, f: T -> T)
    requires forall x :: x in s ==> p(f(x)) == p(x)
    ensures Filter(Map(s, f), p) == Map(Filter(s, p), f)
  {
    if s != [] {
      var front := s[..|s| - 1];
      FilterMap(front, p, f);
      assert Map(s, f)[..|s| - 1] == Map(front, f);
    }
  }

  lemma MapAppend<T, U>(a: seq<T>, b: seq<T>, f: T -> U)
    ensures Map(a + b, f) == Map(a, f) + Map(b, f)
  {
  }
}
